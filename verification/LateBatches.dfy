/** Why a late batch must be rebuilt: the forward order guard compares with the start of the
    current version, not with the last observation, so it does not notice every late batch. */
module LateBatches {
  import opened Types
  import opened Frames
  import opened HistorySpec
  import opened HistoryJob
  import opened HistoryTheorems
  import opened HistoryInvariant

  // ---------------------------------------------------------------- observations that a table already answers

  /** A table that answers for b at b's own time needs no row for it. */
  ghost predicate Answered(table: set<Version>, batch: set<Observation>) {
    forall b :: b in batch ==> AnswersWith(table, b.customer, b.at, b.digest)
  }

  /** The latest of old and answered observations has the digest that the table gives. */
  lemma AnswersLatest(obs: set<Observation>, batch: set<Observation>, table: set<Version>, c: CustomerId, t: Instant, q: Observation)
    requires Answers(obs, table) && Answered(table, batch) && Latest(obs + batch, c, t, q)
    ensures AnswersWith(table, c, t, q.digest)
  {
    if q in obs {
      assert Latest(obs, c, t, q);
    } else {
      var w :| w in table && w.customer == c && Covers(w, q.at) && w.digest == q.digest;
      var o :| o in obs && w == VersionFrom(o, w.validTo);
      var p := LatestExists(obs, c, t, o);
      assert p.at <= q.at && Latest(obs, c, q.at, p);
      var u := AnsweringRow(obs, table, c, q.at, p);
      assert u == w;
    }
  }

  /** Adding answered observations leaves the history as it is. */
  lemma AnsweredChangesNothing(obs: set<Observation>, batch: set<Observation>)
    requires Unambiguous(obs + batch) && Answered(History(obs), batch)
    ensures History(obs + batch) == History(obs)
  {
    var table := History(obs);
    assert Unambiguous(obs);
    HistoryAnswers(obs);
    forall c, t, q | Latest(obs + batch, c, t, q) ensures AnswersWith(table, c, t, q.digest) {
      AnswersLatest(obs, batch, table, c, t, q);
    }
    assert TakenFrom(obs + batch, table);
    HistoryIsUnique(obs + batch, table);
  }

  // ---------------------------------------------------------------- when forward mode is right

  ghost predicate LastWord(obs: set<Observation>, b: Observation) {
    forall o :: o in obs && o.customer == b.customer ==> o.at < b.at
  }

  /** What must hold of one row of the batch: it changes its customer after everything observed of
      it, or it leaves it alone and the table already answers for it. */
  ghost predicate FitsForward(rows: seq<Version>, obs: set<Observation>, b: Observation) {
    if IsChanged(rows, b) then LastWord(obs, b) else AnswersWith(Rows(rows), b.customer, b.at, b.digest)
  }

  ghost predicate AllFit(rows: seq<Version>, obs: set<Observation>, source: seq<Observation>) {
    forall b :: b in source ==> FitsForward(rows, obs, b)
  }

  lemma ChangedAgain(rows: seq<Version>, source: seq<Observation>)
    ensures Changed(rows, Changed(rows, source)) == Changed(rows, source)
    ensures Forward(rows, Changed(rows, source)) == Forward(rows, source)
  {
    FilterAll(Changed(rows, source), (o: Observation) => IsChanged(rows, o));
  }

  ghost function Unchanged(rows: seq<Version>, source: seq<Observation>): set<Observation> {
    set b | b in source && !IsChanged(rows, b)
  }

  lemma SplitByChange(rows: seq<Version>, source: seq<Observation>)
    ensures Rows(source) == Unchanged(rows, source) + Rows(Changed(rows, source))
  {
  }

  lemma DistinctInSource(source: seq<Observation>, a: Observation, b: Observation)
    requires DistinctCustomers(source) && a in source && b in source && a.customer == b.customer
    ensures a == b
  {
    var i :| 0 <= i < |source| && source[i] == a;
    var j :| 0 <= j < |source| && source[j] == b;
  }

  lemma ChangesAreLast(rows: seq<Version>, obs: set<Observation>, source: seq<Observation>)
    requires DistinctCustomers(source) && AllFit(rows, obs, source)
    ensures DistinctCustomers(Changed(rows, source)) && LaterBatch(obs + Unchanged(rows, source), Rows(Changed(rows, source)))
  {
    var changed, known := Changed(rows, source), obs + Unchanged(rows, source);
    FilterKeepsDistinct(source, (o: Observation) => IsChanged(rows, o));
    forall o, b | o in known && b in Rows(changed) && o.customer == b.customer ensures o.at < b.at {
      assert FitsForward(rows, obs, b);
      if o in Unchanged(rows, source) {
        DistinctInSource(source, o, b);
      }
    }
    forall a, b | a in Rows(changed) && b in Rows(changed) && a.customer == b.customer ensures a == b {
      DistinctInSource(source, a, b);
    }
  }

  lemma FittingBatchIsRight(rows: seq<Version>, obs: set<Observation>, source: seq<Observation>)
    requires Unambiguous(obs) && Holds(rows, obs) && Unambiguous(obs + Rows(source)) && DistinctCustomers(source)
    requires AllFit(rows, obs, source)
    ensures Holds(Forward(rows, source), obs + Rows(source))
  {
    var changed, quiet := Changed(rows, source), Unchanged(rows, source);
    SplitByChange(rows, source);
    assert obs + Rows(source) == (obs + quiet) + Rows(changed);
    assert Rows(rows) == History(obs);
    forall b | b in quiet ensures AnswersWith(History(obs), b.customer, b.at, b.digest) {
      assert FitsForward(rows, obs, b);
    }
    AnsweredChangesNothing(obs, quiet);
    ChangesAreLast(rows, obs, source);
    ForwardHolds(rows, obs + quiet, changed);
    ChangedAgain(rows, source);
  }

  /** A table that ends with a changed b does not answer for an observation after b. */
  lemma LateObservationIsLost(rows: seq<Version>, obs: set<Observation>, after: seq<Version>, batch: set<Observation>, b: Observation, o: Observation)
    requires Unambiguous(obs) && Holds(rows, obs) && Unambiguous(obs + batch)
    requires b in batch && IsChanged(rows, b) && o in obs && o.customer == b.customer && b.at <= o.at
    requires forall c :: c in batch && c.customer == b.customer ==> c == b
    requires VersionFrom(b, None) in after
    ensures !Holds(after, obs + batch)
  {
    if Holds(after, obs + batch) {
      var s := set q | q in obs && q.customer == b.customer;
      assert o in s;
      var p := GreatestExists(s);
      var v := CurrentRow(obs, p);
      ChangedMeansChanged(rows, obs, b);
      assert p.digest != b.digest;
      assert Latest(obs + batch, b.customer, p.at, p);
      assert VersionFrom(b, None) in History(obs + batch);
      assert Covers(VersionFrom(b, None), p.at);
      var w := CoveringRowExists(obs + batch, b.customer, p.at, p);
      RowsDoNotOverlap(obs + batch, VersionFrom(b, None), w, p.at);
    }
  }

  lemma ChangeIsWritten(rows: seq<Version>, source: seq<Observation>, b: Observation)
    requires b in source && IsChanged(rows, b)
    ensures VersionFrom(b, None) in Forward(rows, source)
  {
    var changed := Changed(rows, source);
    var i :| 0 <= i < |changed| && changed[i] == b;
    assert Forward(rows, source)[|rows| + i] == VersionFrom(b, None);
  }

  lemma ChangedMustBeLast(rows: seq<Version>, obs: set<Observation>, source: seq<Observation>, b: Observation)
    requires Unambiguous(obs) && Holds(rows, obs) && Unambiguous(obs + Rows(source)) && DistinctCustomers(source)
    requires Holds(Forward(rows, source), obs + Rows(source)) && b in source && IsChanged(rows, b)
    ensures LastWord(obs, b)
  {
    ChangeIsWritten(rows, source, b);
    forall c | c in Rows(source) && c.customer == b.customer ensures c == b {
      DistinctInSource(source, c, b);
    }
    if o :| o in obs && o.customer == b.customer && b.at <= o.at {
      LateObservationIsLost(rows, obs, Forward(rows, source), Rows(source), b, o);
    }
  }

  /** Rows of a customer that the batch leaves alone are the rows that were there. */
  lemma QuietRowsStay(rows: seq<Version>, source: seq<Observation>, b: Observation, w: Version)
    requires DistinctCustomers(source) && b in source && !IsChanged(rows, b)
    requires w in Forward(rows, source) && w.customer == b.customer
    ensures w in rows
  {
    var changed, after := Changed(rows, source), Forward(rows, source);
    ForwardIsMerged(rows, source);
    RowsAdded(rows, changed, after);
    forall c | c in changed ensures c.customer != b.customer {
      if c.customer == b.customer {
        DistinctInSource(source, c, b);
      }
    }
    var i :| 0 <= i < |after| && after[i] == w;
    if i < |rows| {
      RowsAfter(rows, changed, after, i);
    }
  }

  lemma UnchangedMustBeAnswered(rows: seq<Version>, obs: set<Observation>, source: seq<Observation>, b: Observation)
    requires Unambiguous(obs + Rows(source)) && DistinctCustomers(source)
    requires Holds(Forward(rows, source), obs + Rows(source)) && b in source && !IsChanged(rows, b)
    ensures AnswersWith(Rows(rows), b.customer, b.at, b.digest)
  {
    var all := obs + Rows(source);
    assert Latest(all, b.customer, b.at, b);
    var w := CoveringRowExists(all, b.customer, b.at, b);
    QuietRowsStay(rows, source, b, w);
  }

  lemma RightBatchFits(rows: seq<Version>, obs: set<Observation>, source: seq<Observation>)
    requires Unambiguous(obs) && Holds(rows, obs) && Unambiguous(obs + Rows(source)) && DistinctCustomers(source)
    requires Holds(Forward(rows, source), obs + Rows(source))
    ensures AllFit(rows, obs, source)
  {
    forall b | b in source ensures FitsForward(rows, obs, b) {
      if IsChanged(rows, b) {
        ChangedMustBeLast(rows, obs, source, b);
      } else {
        UnchangedMustBeAnswered(rows, obs, source, b);
      }
    }
  }

  /** Exactly when forward mode is right about a batch that it accepts: each row that changes its
      customer is later than everything observed of it, and each row that does not is already
      answered by the table at its own time. */
  lemma LateBatchExactly(rows: seq<Version>, obs: set<Observation>, source: seq<Observation>)
    requires Unambiguous(obs) && Holds(rows, obs) && Unambiguous(obs + Rows(source))
    requires source != [] && SameTime(source) && DistinctCustomers(source) && !OutOfOrder(rows, source)
    ensures ApplyHistory(rows, source).result.Success?
    ensures Holds(ApplyHistory(rows, source).rows, obs + Rows(source)) <==> AllFit(rows, obs, source)
  {
    HoldsIsWellFormed(rows, obs);
    ApplyExactly(rows, source);
    if AllFit(rows, obs, source) {
      FittingBatchIsRight(rows, obs, source);
    }
    if Holds(Forward(rows, source), obs + Rows(source)) {
      RightBatchFits(rows, obs, source);
    }
  }

  // ---------------------------------------------------------------- two late batches that the guard lets through

  lemma OneRow(o: Observation)
    ensures RebuiltRows([o]) == [VersionFrom(o, None)] && Holds([VersionFrom(o, None)], {o})
  {
    RebuildHolds([o]);
    assert Rows([o]) == {o};
  }

  lemma OneVersion(first: Observation, second: Observation)
    requires first.customer == second.customer && first.digest == second.digest && first.at < second.at
    ensures Holds([VersionFrom(first, None)], {first, second})
  {
    var source := [first, second];
    assert source[1..] == [second] && [second][1..] == [];
    assert BeginsVersion(source, first) && !BeginsVersion(source, second);
    FilterNone([second], (o: Observation) => BeginsVersion(source, o));
    assert ChangesOf(source) == [first];
    assert LeadOf([first], first) == None;
    RebuildHolds(source);
    assert Rows(source) == {first, second};
  }

  lemma OneRowFits(row: Version, obs: set<Observation>, late: Observation)
    requires row.isCurrent && row.customer == late.customer && (row.digest != late.digest ==> row.validFrom < late.at)
    ensures !OutOfOrder([row], [late]) && Rows([late]) == {late} && SameTime([late]) && DistinctCustomers([late])
    ensures IsChanged([row], late) <==> row.digest != late.digest
    ensures AllFit([row], obs, [late]) <==> FitsForward([row], obs, late)
  {
  }

  lemma BetweenIsMissed(first: Observation, second: Observation, late: Observation)
    requires first.customer == second.customer == late.customer && first.digest == second.digest != late.digest
    requires first.at < late.at < second.at
    ensures var rows := [VersionFrom(first, None)];
      && Holds(rows, {first, second}) && !OutOfOrder(rows, [late]) && ApplyHistory(rows, [late]).result.Success?
      && !Holds(ApplyHistory(rows, [late]).rows, {first, second} + {late})
  {
    OneVersion(first, second);
    OneRowFits(VersionFrom(first, None), {first, second}, late);
    LateBatchExactly([VersionFrom(first, None)], {first, second}, [late]);
  }

  lemma EarlierIsMissed(first: Observation, late: Observation)
    requires first.customer == late.customer && first.digest == late.digest && late.at < first.at
    ensures var rows := [VersionFrom(first, None)];
      && Holds(rows, {first}) && !OutOfOrder(rows, [late]) && ApplyHistory(rows, [late]).result.Success?
      && ApplyHistory(rows, [late]).rows == rows && !Holds(rows, {first} + {late})
  {
    var rows := [VersionFrom(first, None)];
    OneRow(first);
    OneRowFits(rows[0], {first}, late);
    LateBatchExactly(rows, {first}, [late]);
    QuietApplyStays(rows, {first}, late);
  }

  lemma QuietApplyStays(rows: seq<Version>, obs: set<Observation>, late: Observation)
    requires Unambiguous(obs) && Holds(rows, obs) && !IsChanged(rows, late)
    ensures ApplyHistory(rows, [late]).rows == rows
  {
    HoldsIsWellFormed(rows, obs);
    ApplyExactly(rows, [late]);
    FilterNone([late], (o: Observation) => IsChanged(rows, o));
    NothingChangedNothingMerged(rows, [late]);
  }

  /** A change between two equal observations: the customer was seen with digest 7 at 1 and 5, and
      digest 8 at 3 arrives last. Forward mode accepts it and forgets what was seen at 5. */
  lemma GuardMissesLateBatch(a: Attributes)
    ensures var first, second, late := Observation(1, 1, 1, 7, a), Observation(1, 5, 2, 7, a), Observation(1, 3, 3, 8, a);
      var rows := [VersionFrom(first, None)];
      && Holds(rows, {first, second}) && !OutOfOrder(rows, [late]) && ApplyHistory(rows, [late]).result.Success?
      && !Holds(ApplyHistory(rows, [late]).rows, {first, second} + {late})
  {
    BetweenIsMissed(Observation(1, 1, 1, 7, a), Observation(1, 5, 2, 7, a), Observation(1, 3, 3, 8, a));
  }

  /** An earlier start: the customer was seen with digest 8 at 5, and digest 8 at 3 arrives last.
      Forward mode accepts it, writes nothing, and the version still begins at 5. */
  lemma GuardMissesEarlierStart(a: Attributes)
    ensures var first, late := Observation(1, 5, 1, 8, a), Observation(1, 3, 2, 8, a);
      var rows := [VersionFrom(first, None)];
      && Holds(rows, {first}) && !OutOfOrder(rows, [late]) && ApplyHistory(rows, [late]).result.Success?
      && ApplyHistory(rows, [late]).rows == rows && !Holds(rows, {first} + {late})
  {
    EarlierIsMissed(Observation(1, 5, 1, 8, a), Observation(1, 3, 2, 8, a));
  }
}
