/** The customer history job: the forward MERGE, the full rebuild, and the guards around both. */
module HistoryJob {
  import opened Types
  import opened Frames
  import opened HistorySpec

  datatype SilverRow = SilverRow(batch: BatchId, at: Instant, customer: CustomerId, attributes: Attributes)

  datatype HistoryError =
    | EmptyBatch | ManyEffectiveTimes | DuplicateCustomers | NotNewer
    | EmptySource | MissingValues | AmbiguousTimes | DuplicateIdentities | SourceTooShort
    | BrokenTarget | MergeCardinality | PostCondition

  datatype ForwardReport = ForwardReport(sourceRows: nat, changedRows: nat, rowsBefore: nat, rowsAfter: nat)
  datatype Action = Replay | Replace
  datatype RebuildReport = RebuildReport(action: Action, sourceRows: nat, historyRows: nat)

  /** A job leaves the table in some state and returns or raises. */
  datatype Outcome<+R> = Outcome(rows: seq<Version>, result: Result<R, HistoryError>)

  function HistoryColumns(digestOf: Attributes -> Digest, s: SilverRow): Observation {
    Observation(s.customer, s.at, s.batch, digestOf(s.attributes), s.attributes)
  }

  function WithHistoryColumns(digestOf: Attributes -> Digest, source: seq<SilverRow>): seq<Observation> {
    Map(source, (s: SilverRow) => HistoryColumns(digestOf, s))
  }

  ghost function Rows<T>(s: seq<T>): set<T> {
    set x | x in s
  }

  // ---------------------------------------------------------------- the target's invariants

  predicate CurrentAt(rows: seq<Version>, c: CustomerId, j: int) {
    0 <= j < |rows| && rows[j].customer == c && rows[j].isCurrent
  }

  predicate OnlyCurrentAt(rows: seq<Version>, c: CustomerId, j: int) {
    CurrentAt(rows, c, j) && forall k | 0 <= k < |rows| :: CurrentAt(rows, c, k) ==> k == j
  }

  predicate HasOneCurrent(rows: seq<Version>, c: CustomerId) {
    exists j | 0 <= j < |rows| :: OnlyCurrentAt(rows, c, j)
  }

  predicate OneCurrentEach(rows: seq<Version>) {
    forall i | 0 <= i < |rows| :: HasOneCurrent(rows, rows[i].customer)
  }

  predicate PeriodAgrees(v: Version) {
    (v.validTo != None ==> v.validFrom < v.validTo.value) && (v.isCurrent <==> v.validTo == None)
  }

  /** rows[j] comes just before rows[i] in the customer's rows by start. */
  predicate Precedes(rows: seq<Version>, j: int, i: int)
    requires 0 <= i < |rows| && 0 <= j < |rows|
  {
    rows[j].customer == rows[i].customer && rows[j].validFrom < rows[i].validFrom &&
    forall k | 0 <= k < |rows| :: rows[k].customer == rows[i].customer && rows[k].validFrom < rows[i].validFrom ==> rows[k].validFrom <= rows[j].validFrom
  }

  predicate NoGaps(rows: seq<Version>) {
    forall i, j | 0 <= i < |rows| && 0 <= j < |rows| ::
      Precedes(rows, j, i) && rows[j].validTo != None ==> rows[j].validTo.value == rows[i].validFrom
  }

  /** The check that both modes run on the target. */
  predicate ValidTarget(rows: seq<Version>) {
    OneCurrentEach(rows) && (forall i | 0 <= i < |rows| :: PeriodAgrees(rows[i])) && NoGaps(rows)
  }

  predicate DistinctStarts(rows: seq<Version>) {
    forall i, j | 0 <= i < j < |rows| :: rows[i].customer == rows[j].customer ==> rows[i].validFrom != rows[j].validFrom
  }

  predicate CurrentIsLast(rows: seq<Version>) {
    forall i, j | 0 <= i < |rows| && 0 <= j < |rows| ::
      rows[i].customer == rows[j].customer && rows[j].isCurrent ==> rows[i].validFrom <= rows[j].validFrom
  }

  /** What every reachable table satisfies; strictly more than ValidTarget. */
  predicate WellFormed(rows: seq<Version>) {
    ValidTarget(rows) && DistinctStarts(rows) && CurrentIsLast(rows)
  }

  ghost predicate NoOverlap(rows: seq<Version>) {
    forall i, j, t :: 0 <= i < j < |rows| && rows[i].customer == rows[j].customer && Covers(rows[i], t) ==> !Covers(rows[j], t)
  }

  // ---------------------------------------------------------------- forward

  predicate SameTime(source: seq<Observation>) {
    forall i, j | 0 <= i < j < |source| :: source[i].at == source[j].at
  }

  predicate DistinctCustomers(source: seq<Observation>) {
    forall i, j | 0 <= i < j < |source| :: source[i].customer != source[j].customer
  }

  /** The customer's row in the frame of current rows; unique once the target is valid. */
  function CurrentOf(rows: seq<Version>, c: CustomerId): (r: Option<Version>)
    ensures r == None ==> forall v :: v in rows && v.customer == c ==> !v.isCurrent
    ensures r != None ==> r.value in rows && r.value.customer == c && r.value.isCurrent
  {
    if rows == [] then None
    else if rows[0].customer == c && rows[0].isCurrent then Some(rows[0])
    else CurrentOf(rows[1..], c)
  }

  predicate OutOfOrder(rows: seq<Version>, source: seq<Observation>) {
    exists i, j | 0 <= i < |source| && 0 <= j < |rows| ::
      CurrentAt(rows, source[i].customer, j) && source[i].digest != rows[j].digest && source[i].at <= rows[j].validFrom
  }

  predicate IsChanged(rows: seq<Version>, o: Observation) {
    var current := CurrentOf(rows, o.customer);
    current == None || o.digest != current.value.digest
  }

  function Changed(rows: seq<Version>, source: seq<Observation>): seq<Observation> {
    Filter(source, (o: Observation) => IsChanged(rows, o))
  }

  /** A row of the MERGE source; a null key matches no target row. */
  datatype MergeRow = MergeRow(key: Option<CustomerId>, version: Version)

  function NewVersions(changed: seq<Observation>): (r: seq<Version>)
    ensures |r| == |changed| && forall i :: 0 <= i < |r| ==> r[i] == VersionFrom(changed[i], None)
  {
    Map(changed, (o: Observation) => VersionFrom(o, None))
  }

  /** The join of the new versions with the current rows, keyed by customer. */
  function Closing(rows: seq<Version>, versions: seq<Version>): (r: seq<MergeRow>)
    ensures forall s :: s in r ==> s.key == Some(s.version.customer) && s.version in versions && CurrentOf(rows, s.version.customer) != None
    ensures forall v :: v in versions && CurrentOf(rows, v.customer) != None ==> MergeRow(Some(v.customer), v) in r
  {
    if versions == [] then []
    else if CurrentOf(rows, versions[0].customer) != None then
      [MergeRow(Some(versions[0].customer), versions[0])] + Closing(rows, versions[1..])
    else Closing(rows, versions[1..])
  }

  function Inserts(versions: seq<Version>): (r: seq<MergeRow>)
    ensures |r| == |versions| && forall i :: 0 <= i < |r| ==> r[i] == MergeRow(None, versions[i])
  {
    Map(versions, (v: Version) => MergeRow(None, v))
  }

  function MergeSource(rows: seq<Version>, changed: seq<Observation>): seq<MergeRow> {
    var versions := NewVersions(changed);
    Closing(rows, versions) + Inserts(versions)
  }

  predicate Matches(s: MergeRow, t: Version) {
    s.key == Some(t.customer) && t.isCurrent
  }

  predicate MatchedTwice(target: seq<Version>, source: seq<MergeRow>) {
    exists i, j, k | 0 <= i < |target| && 0 <= j < k < |source| :: Matches(source[j], target[i]) && Matches(source[k], target[i])
  }

  function Updated(source: seq<MergeRow>, t: Version): (r: Version)
    ensures (forall s :: s in source ==> !Matches(s, t)) ==> r == t
    ensures r != t ==> exists s :: s in source && Matches(s, t)
    ensures (exists s :: s in source && Matches(s, t)) ==> exists s :: s in source && Matches(s, t) && r == Closed(t, s.version.validFrom)
  {
    if source == [] then t
    else if Matches(source[0], t) then Closed(t, source[0].version.validFrom)
    else Updated(source[1..], t)
  }

  predicate IsInsert(target: seq<Version>, s: MergeRow) {
    s.key == None && forall i | 0 <= i < |target| :: !Matches(s, target[i])
  }

  function AllUpdated(source: seq<MergeRow>, target: seq<Version>): (r: seq<Version>)
    ensures |r| == |target| && forall i :: 0 <= i < |r| ==> r[i] == Updated(source, target[i])
  {
    Map(target, (t: Version) => Updated(source, t))
  }

  function Inserted(target: seq<Version>, source: seq<MergeRow>): seq<Version> {
    if source == [] then []
    else if IsInsert(target, source[0]) then [source[0].version] + Inserted(target, source[1..])
    else Inserted(target, source[1..])
  }

  /** MERGE INTO target USING source: WHEN MATCHED close the row, WHEN NOT MATCHED and the key is
      null insert. A target row matched by two source rows is an error of the statement. */
  function Merge(target: seq<Version>, source: seq<MergeRow>): Result<seq<Version>, HistoryError> {
    if MatchedTwice(target, source) then Failure(MergeCardinality)
    else Success(AllUpdated(source, target) + Inserted(target, source))
  }

  function CurrentCount(rows: seq<Version>, c: CustomerId): nat {
    if rows == [] then 0
    else (if rows[0].customer == c && rows[0].isCurrent then 1 else 0) + CurrentCount(rows[1..], c)
  }

  /** Rows of the join of the source with the current rows. */
  function JoinCount(source: seq<Observation>, rows: seq<Version>): nat {
    if source == [] then 0 else CurrentCount(rows, source[0].customer) + JoinCount(source[1..], rows)
  }

  predicate CurrentMismatch(rows: seq<Version>, source: seq<Observation>) {
    exists i, j | 0 <= i < |source| && 0 <= j < |rows| ::
      CurrentAt(rows, source[i].customer, j) && source[i].digest != rows[j].digest
  }

  function ApplyHistory(rows: seq<Version>, source: seq<Observation>): Outcome<ForwardReport> {
    if source == [] then Outcome(rows, Failure(EmptyBatch))
    else if !SameTime(source) then Outcome(rows, Failure(ManyEffectiveTimes))
    else if !DistinctCustomers(source) then Outcome(rows, Failure(DuplicateCustomers))
    else if !ValidTarget(rows) then Outcome(rows, Failure(BrokenTarget))
    else if OutOfOrder(rows, source) then Outcome(rows, Failure(NotNewer))
    else
      var changed := Changed(rows, source);
      var merged := if changed == [] then Success(rows) else Merge(rows, MergeSource(rows, changed));
      if merged.Failure? then Outcome(rows, Failure(merged.error))
      else
        var after := merged.value;
        if !ValidTarget(after) then Outcome(after, Failure(BrokenTarget))
        else if |after| - |rows| != |changed| || JoinCount(source, after) != |source| || CurrentMismatch(after, source)
        then Outcome(after, Failure(PostCondition))
        else Outcome(after, Success(ForwardReport(|source|, |changed|, |rows|, |after|)))
  }

  // ---------------------------------------------------------------- rebuild

  predicate Complete(o: Observation) {
    o.attributes.fullName != None && o.attributes.registeredAt != None
  }

  predicate Ambiguous(source: seq<Observation>) {
    exists i, j | 0 <= i < j < |source| :: source[i].customer == source[j].customer && source[i].at == source[j].at
  }

  predicate RepeatsIdentity(source: seq<Observation>) {
    exists i, j | 0 <= i < j < |source| :: source[i].customer == source[j].customer && source[i].batch == source[j].batch
  }

  /** lag over the customer's rows by time. */
  function LagOf(source: seq<Observation>, o: Observation): (r: Option<Observation>)
    ensures r != None ==> Lag(Rows(source), o, r.value)
    ensures r == None ==> forall q :: q in source && q.customer == o.customer ==> o.at <= q.at
  {
    if source == [] then None
    else
      var rest := LagOf(source[1..], o);
      if source[0].customer == o.customer && source[0].at < o.at && (rest == None || rest.value.at < source[0].at)
      then Some(source[0])
      else rest
  }

  predicate BeginsVersion(source: seq<Observation>, o: Observation) {
    var previous := LagOf(source, o);
    previous == None || previous.value.digest != o.digest
  }

  function ChangesOf(source: seq<Observation>): seq<Observation> {
    Filter(source, (o: Observation) => BeginsVersion(source, o))
  }

  /** lead of valid_from over the customer's rows by time. */
  function LeadOf(changes: seq<Observation>, o: Observation): (r: Option<Instant>)
    ensures r == None ==> forall q :: q in changes && q.customer == o.customer ==> q.at <= o.at
    ensures r != None ==> o.at < r.value && exists q :: q in changes && q.customer == o.customer && q.at == r.value
    ensures r != None ==> forall q :: q in changes && q.customer == o.customer && o.at < q.at ==> r.value <= q.at
  {
    if changes == [] then None
    else
      var rest := LeadOf(changes[1..], o);
      if changes[0].customer == o.customer && o.at < changes[0].at && (rest == None || changes[0].at < rest.value)
      then Some(changes[0].at)
      else rest
  }

  function RebuiltRows(source: seq<Observation>): seq<Version> {
    var changes := ChangesOf(source);
    Map(changes, (o: Observation) => VersionFrom(o, LeadOf(changes, o)))
  }

  /** Every target row starts at or after the customer's first source row. */
  predicate CoversTarget(source: seq<Observation>, rows: seq<Version>) {
    forall i | 0 <= i < |rows| :: KnownBy(source, rows[i].customer, rows[i].validFrom)
  }

  predicate KnownBy(source: seq<Observation>, c: CustomerId, t: Instant) {
    exists j | 0 <= j < |source| :: source[j].customer == c && source[j].at <= t
  }

  function RebuildHistory(rows: seq<Version>, source: seq<Observation>): Outcome<RebuildReport> {
    if source == [] then Outcome(rows, Failure(EmptySource))
    else if exists i | 0 <= i < |source| :: !Complete(source[i]) then Outcome(rows, Failure(MissingValues))
    else if Ambiguous(source) then Outcome(rows, Failure(AmbiguousTimes))
    else if RepeatsIdentity(source) then Outcome(rows, Failure(DuplicateIdentities))
    else if !CoversTarget(source, rows) then Outcome(rows, Failure(SourceTooShort))
    else
      var history := RebuiltRows(source);
      var action := if multiset(history) == multiset(rows) then Replay else Replace;
      var after := if action == Replace then history else rows;
      if !ValidTarget(after) then Outcome(after, Failure(BrokenTarget))
      else if multiset(history) != multiset(after) then Outcome(after, Failure(PostCondition))
      else Outcome(after, Success(RebuildReport(action, |source|, |history|)))
  }
}
