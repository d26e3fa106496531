/** The profile's own reading of customer history: a run-length loop over dated revisions, which
    must list exactly the periods that the history rebuild gives each customer. */
module ProfileOracle {
  import opened Types
  import opened Frames
  import opened HistorySpec
  import J = HistoryJob
  import T = HistoryTheorems

  datatype Period = Period(validFrom: Instant, validTo: Option<Instant>, isCurrent: bool, revision: nat)
  datatype ProfileError = LengthsDiffer

  // ---------------------------------------------------------------- runs of equal revisions

  ghost function RunEnd(starts: seq<nat>, j: nat, n: nat): nat
    requires j < |starts|
  {
    if j + 1 < |starts| then starts[j + 1] else n
  }

  /** starts lists the positions where a new run of equal values begins. */
  ghost predicate Runs(values: seq<nat>, starts: seq<nat>) {
    && (values == [] <==> starts == []) && (values != [] ==> starts[0] == 0)
    && (forall j :: 0 <= j < |starts| ==> starts[j] < |values|)
    && (forall j :: 0 < j < |starts| ==> starts[j - 1] < starts[j] && values[starts[j]] != values[starts[j - 1]])
    && (forall j, i :: 0 <= j < |starts| && starts[j] <= i < RunEnd(starts, j, |values|) ==> values[i] == values[starts[j]])
  }

  ghost function PeriodAt(times: seq<Instant>, values: seq<nat>, starts: seq<nat>, j: nat): Period
    requires |times| >= |values| && Runs(values, starts) && j < |starts|
  {
    var end := if j + 1 < |starts| then Some(times[starts[j + 1]]) else None;
    Period(times[starts[j]], end, end == None, values[starts[j]])
  }

  ghost predicate PeriodsOf(times: seq<Instant>, values: seq<nat>, starts: seq<nat>, periods: seq<Period>)
    requires |times| >= |values|
  {
    Runs(values, starts) && |periods| == |starts| && forall j :: 0 <= j < |periods| ==> periods[j] == PeriodAt(times, values, starts, j)
  }

  ghost predicate RunLengths(times: seq<Instant>, revisions: seq<nat>, periods: seq<Period>) {
    |times| == |revisions| && exists starts :: PeriodsOf(times, revisions, starts, periods)
  }

  lemma RunGoesOn(times: seq<Instant>, values: seq<nat>, starts: seq<nat>, periods: seq<Period>, next: nat)
    requires |times| > |values| && PeriodsOf(times, values, starts, periods)
    requires periods != [] && periods[|periods| - 1].revision == next
    ensures PeriodsOf(times, values + [next], starts, periods)
  {
  }

  lemma RunBegins(times: seq<Instant>, values: seq<nat>, starts: seq<nat>, next: nat)
    requires |times| > |values| && Runs(values, starts) && (starts != [] ==> values[starts[|starts| - 1]] != next)
    ensures Runs(values + [next], starts + [|values|])
  {
  }

  /** What the loop does to its list when a revision differs from the last. */
  function NewPeriod(periods: seq<Period>, at: Instant, revision: nat): seq<Period> {
    (if periods == [] then periods
     else periods[|periods| - 1 := periods[|periods| - 1].(validTo := Some(at), isCurrent := false)]) + [Period(at, None, true, revision)]
  }

  lemma PeriodBegins(times: seq<Instant>, values: seq<nat>, starts: seq<nat>, periods: seq<Period>, next: nat)
    requires |times| > |values| && PeriodsOf(times, values, starts, periods)
    requires periods == [] || periods[|periods| - 1].revision != next
    ensures PeriodsOf(times, values + [next], starts + [|values|], NewPeriod(periods, times[|values|], next))
  {
    RunBegins(times, values, starts, next);
    var after, begun := NewPeriod(periods, times[|values|], next), starts + [|values|];
    forall j | 0 <= j < |after| ensures after[j] == PeriodAt(times, values + [next], begun, j) {
      if j < |periods| {
        assert periods[j] == PeriodAt(times, values, starts, j);
      }
    }
  }

  /** The loop of customer_history_observation(), which appends periods and rewrites the last. */
  method ExpectedPeriods(times: seq<Instant>, revisions: seq<nat>) returns (result: Result<seq<Period>, ProfileError>)
    ensures result.Success? <==> |times| == |revisions|
    ensures result.Success? ==> RunLengths(times, revisions, result.value)
  {
    if |times| != |revisions| { return Failure(LengthsDiffer); }
    var periods: seq<Period> := [];
    ghost var starts: seq<nat> := [];
    for i := 0 to |times|
      invariant PeriodsOf(times, revisions[..i], starts, periods)
    {
      assert revisions[..i + 1] == revisions[..i] + [revisions[i]];
      if periods == [] || periods[|periods| - 1].revision != revisions[i] {
        PeriodBegins(times, revisions[..i], starts, periods, revisions[i]);
        if periods != [] {
          periods := periods[|periods| - 1 := periods[|periods| - 1].(validTo := Some(times[i]), isCurrent := false)];
        }
        periods := periods + [Period(times[i], None, true, revisions[i])];
        starts := starts + [i];
      } else {
        RunGoesOn(times, revisions[..i], starts, periods, revisions[i]);
      }
    }
    assert revisions[..|times|] == revisions;
    result := Success(periods);
  }

  // ---------------------------------------------------------------- the rebuild of one customer

  ghost predicate Increasing(times: seq<Instant>) {
    forall i, j :: 0 <= i < j < |times| ==> times[i] < times[j]
  }

  /** One customer's observations in time order. */
  ghost predicate InOrder(source: seq<Observation>) {
    forall i, j :: 0 <= i < j < |source| ==> source[i].customer == source[j].customer && source[i].at < source[j].at
  }

  function Digests(source: seq<Observation>): seq<Digest> {
    Map(source, (o: Observation) => o.digest)
  }

  ghost function VersionAt(source: seq<Observation>, starts: seq<nat>, j: nat): Version
    requires Runs(Digests(source), starts) && j < |starts|
  {
    VersionFrom(source[starts[j]], if j + 1 < |starts| then Some(source[starts[j + 1]].at) else None)
  }

  ghost predicate VersionsOf(source: seq<Observation>, starts: seq<nat>, versions: seq<Version>) {
    && Runs(Digests(source), starts) && InOrder(source)
    && |versions| == |starts| && forall j :: 0 <= j < |versions| ==> versions[j] == VersionAt(source, starts, j)
  }

  lemma {:induction false} StartsIncrease(values: seq<nat>, starts: seq<nat>, i: nat, j: nat)
    requires Runs(values, starts) && i < j < |starts|
    ensures starts[i] < starts[j]
    decreases j
  {
    if i + 1 < j {
      StartsIncrease(values, starts, i, j - 1);
    }
  }

  /** The run that a position belongs to. */
  lemma {:induction false} RunOf(values: seq<nat>, starts: seq<nat>, i: nat, k: nat) returns (j: nat)
    requires Runs(values, starts) && i < |values| && k < |starts| && (k + 1 < |starts| ==> i < starts[k + 1])
    ensures j < |starts| && starts[j] <= i < RunEnd(starts, j, |values|)
    decreases k
  {
    if starts[k] <= i {
      j := k;
    } else {
      j := RunOf(values, starts, i, k - 1);
    }
  }

  lemma EachInstantAnswered(source: seq<Observation>, starts: seq<nat>, versions: seq<Version>, c: CustomerId, t: Instant, p: Observation)
    requires VersionsOf(source, starts, versions) && Latest(J.Rows(source), c, t, p)
    ensures AnswersWith(J.Rows(versions), c, t, p.digest)
  {
    var i :| 0 <= i < |source| && source[i] == p;
    var j := RunOf(Digests(source), starts, i, |starts| - 1);
    RunCovers(source, starts, versions, t, i, j);
    assert versions[j] in J.Rows(versions);
  }

  lemma RunCovers(source: seq<Observation>, starts: seq<nat>, versions: seq<Version>, t: Instant, i: nat, j: nat)
    requires VersionsOf(source, starts, versions) && i < |source| && Latest(J.Rows(source), source[i].customer, t, source[i])
    requires j < |starts| && starts[j] <= i < RunEnd(starts, j, |source|)
    ensures versions[j].customer == source[i].customer && versions[j].digest == source[i].digest && Covers(versions[j], t)
  {
    assert Digests(source)[i] == Digests(source)[starts[j]];
    if j + 1 < |starts| {
      assert source[starts[j + 1]] in J.Rows(source);
    }
  }

  lemma LaterRun(source: seq<Observation>, starts: seq<nat>, versions: seq<Version>, i: nat, j: nat)
    requires VersionsOf(source, starts, versions) && i < j < |versions|
    ensures versions[i].validFrom < versions[j].validFrom
    ensures versions[i].validTo != None && versions[i].validFrom < versions[i].validTo.value <= versions[j].validFrom
    ensures versions[i].validTo.value == versions[j].validFrom ==> versions[i].digest != versions[j].digest
  {
    StartsIncrease(Digests(source), starts, i, j);
    if i + 1 < j {
      StartsIncrease(Digests(source), starts, i + 1, j);
    }
  }

  lemma RunsAnswer(source: seq<Observation>, starts: seq<nat>, versions: seq<Version>)
    requires VersionsOf(source, starts, versions)
    ensures Answers(J.Rows(source), J.Rows(versions)) && NoDuplicates(versions)
  {
    var obs, table := J.Rows(source), J.Rows(versions);
    forall i, j | 0 <= i < j < |versions|
      ensures versions[i].validFrom < versions[j].validFrom
      ensures versions[i].validTo != None && versions[i].validFrom < versions[i].validTo.value <= versions[j].validFrom
      ensures versions[i].validTo.value == versions[j].validFrom ==> versions[i].digest != versions[j].digest
    {
      LaterRun(source, starts, versions, i, j);
    }
    assert TakenFrom(obs, table) by {
      forall v | v in table ensures exists o :: o in obs && v == VersionFrom(o, v.validTo) {
        var j :| 0 <= j < |versions| && versions[j] == v;
        assert source[starts[j]] in obs;
      }
    }
    RunsArePeriods(versions);
    forall c, t, p | Latest(obs, c, t, p) ensures AnswersWith(table, c, t, p.digest) {
      EachInstantAnswered(source, starts, versions, c, t, p);
    }
  }

  /** Rows that follow one another in time, the last one open, are positive, disjoint periods. */
  lemma RunsArePeriods(versions: seq<Version>)
    requires forall i, j :: 0 <= i < j < |versions| ==>
      && versions[i].validFrom < versions[j].validFrom
      && versions[i].validTo != None && versions[i].validFrom < versions[i].validTo.value <= versions[j].validFrom
      && (versions[i].validTo.value == versions[j].validFrom ==> versions[i].digest != versions[j].digest)
    requires versions != [] ==> versions[|versions| - 1].validTo == None
    ensures PeriodsPositive(J.Rows(versions)) && NeighboursDiffer(J.Rows(versions)) && NeverOverlaps(J.Rows(versions)) && NoDuplicates(versions)
  {
  }

  /** One customer's runs are the rows of the rebuild. */
  lemma RunsAreRebuilt(source: seq<Observation>, starts: seq<nat>, versions: seq<Version>)
    requires VersionsOf(source, starts, versions)
    ensures multiset(J.RebuiltRows(source)) == multiset(versions)
  {
    RunsAnswer(source, starts, versions);
    HistoryIsUnique(J.Rows(source), J.Rows(versions));
    T.RebuildHolds(source);
    assert T.Holds(versions, J.Rows(source));
    T.SameBagHolds(J.RebuiltRows(source), versions, J.Rows(source));
  }

  // ---------------------------------------------------------------- the oracle

  /** One observation of the customer a dated revision; the i-th workload has batch i. */
  function Observations(c: CustomerId, digestOf: nat -> Digest, attributesOf: nat -> Attributes, times: seq<Instant>, revisions: seq<nat>): (r: seq<Observation>)
    requires |times| == |revisions|
    ensures |r| == |times|
    ensures forall i :: 0 <= i < |r| ==> r[i] == Observation(c, times[i], i, digestOf(revisions[i]), attributesOf(revisions[i]))
  {
    seq(|times|, i requires 0 <= i < |times| => Observation(c, times[i], i, digestOf(revisions[i]), attributesOf(revisions[i])))
  }

  /** What the profile compares of a period and of a history row. */
  datatype Shown = Shown(validFrom: Instant, validTo: Option<Instant>, isCurrent: bool, digest: Digest)

  function ShownVersion(v: Version): Shown {
    Shown(v.validFrom, v.validTo, v.isCurrent, v.digest)
  }

  function ShownPeriod(digestOf: nat -> Digest, p: Period): Shown {
    Shown(p.validFrom, p.validTo, p.isCurrent, digestOf(p.revision))
  }

  /** The hash tells the revisions in use apart. */
  ghost predicate TellsApart(digestOf: nat -> Digest, revisions: seq<nat>) {
    forall i, j :: 0 <= i < |revisions| && 0 <= j < |revisions| && digestOf(revisions[i]) == digestOf(revisions[j]) ==> revisions[i] == revisions[j]
  }

  lemma SameRuns(digestOf: nat -> Digest, revisions: seq<nat>, digests: seq<Digest>, starts: seq<nat>)
    requires Runs(revisions, starts) && TellsApart(digestOf, revisions)
    requires |digests| == |revisions| && forall i :: 0 <= i < |digests| ==> digests[i] == digestOf(revisions[i])
    ensures Runs(digests, starts)
  {
  }

  lemma PeriodsAreVersions(c: CustomerId, digestOf: nat -> Digest, attributesOf: nat -> Attributes, times: seq<Instant>, revisions: seq<nat>,
    starts: seq<nat>, periods: seq<Period>) returns (versions: seq<Version>)
    requires Increasing(times) && |times| == |revisions| && PeriodsOf(times, revisions, starts, periods) && TellsApart(digestOf, revisions)
    ensures VersionsOf(Observations(c, digestOf, attributesOf, times, revisions), starts, versions)
    ensures Map(versions, ShownVersion) == Map(periods, (p: Period) => ShownPeriod(digestOf, p))
  {
    var source := Observations(c, digestOf, attributesOf, times, revisions);
    SameRuns(digestOf, revisions, Digests(source), starts);
    versions := seq(|starts|, j requires 0 <= j < |starts| => VersionAt(source, starts, j));
  }

  /** The oracle agrees with the rebuild: for any dated revisions in increasing time, including
      returns to an earlier one, and any hash that tells the revisions apart, the loop lists the
      periods of the rebuilt versions, each with its revision's hash. */
  lemma OracleIsTheRebuild(c: CustomerId, digestOf: nat -> Digest, attributesOf: nat -> Attributes, times: seq<Instant>, revisions: seq<nat>, periods: seq<Period>)
    requires Increasing(times) && RunLengths(times, revisions, periods) && TellsApart(digestOf, revisions)
    ensures var rebuilt := J.RebuiltRows(Observations(c, digestOf, attributesOf, times, revisions));
      multiset(Map(rebuilt, ShownVersion)) == multiset(Map(periods, (p: Period) => ShownPeriod(digestOf, p)))
  {
    var source := Observations(c, digestOf, attributesOf, times, revisions);
    var starts :| PeriodsOf(times, revisions, starts, periods);
    var versions := PeriodsAreVersions(c, digestOf, attributesOf, times, revisions, starts, periods);
    RunsAreRebuilt(source, starts, versions);
    MapOfBag(J.RebuiltRows(source), versions, ShownVersion);
  }
}
