/** The current daily mart: always one complete snapshot, the effective-latest one published. */
module CurrentMart {
  import opened Types
  import opened Frames
  import opened DailyGold

  datatype SnapshotIdentity = SnapshotIdentity(id: BatchId, at: Instant, manifest: Digest)
  datatype Action = Create | Stale | Replay | Replace

  datatype MartRow = MartRow(daily: DailyRow, identity: SnapshotIdentity)

  datatype MartError = NotTheSnapshot | RepeatedDay | MixedIdentities | ConflictingIdentity | ReplayDiffers
  datatype Published = IgnoredStale | Ready(action: Action, days: nat)

  /** snapshot_action(): how an incoming snapshot meets the stored one. */
  function SnapshotAction(current: Option<SnapshotIdentity>, incoming: SnapshotIdentity): Result<Action, MartError> {
    if current == None then Success(Create)
    else if incoming.at < current.value.at then Success(Stale)
    else if incoming.at == current.value.at then
      if incoming != current.value then Failure(ConflictingIdentity) else Success(Replay)
    else Success(Replace)
  }

  function Candidate(daily: seq<DailyRow>, identity: SnapshotIdentity): seq<MartRow> {
    Map(daily, (d: DailyRow) => MartRow(d, identity))
  }

  predicate OfSnapshot(daily: seq<DailyRow>, identity: SnapshotIdentity) {
    daily != [] && forall i | 0 <= i < |daily| :: daily[i].day != None && daily[i].batch == Some(identity.id)
  }

  predicate RepeatsDay(daily: seq<DailyRow>) {
    exists i, j | 0 <= i < j < |daily| :: daily[i].day == daily[j].day
  }

  /** The identity of a stored mart; None when it has no identity or several. */
  function StoredIdentity(rows: seq<MartRow>): Option<SnapshotIdentity> {
    if rows == [] || exists i | 0 <= i < |rows| :: rows[i].identity != rows[0].identity then None
    else Some(rows[0].identity)
  }

  /** The table after one publication, and its report. */
  function Publish(rows: Option<seq<MartRow>>, daily: seq<DailyRow>, identity: SnapshotIdentity)
    : (Option<seq<MartRow>>, Result<Published, MartError>)
  {
    if !OfSnapshot(daily, identity) then (rows, Failure(NotTheSnapshot))
    else if RepeatsDay(daily) then (rows, Failure(RepeatedDay))
    else if rows != None && StoredIdentity(rows.value) == None then (rows, Failure(MixedIdentities))
    else
      var action := SnapshotAction(if rows == None then None else StoredIdentity(rows.value), identity);
      if action.Failure? then (rows, Failure(action.error))
      else
        match action.value
        case Stale => (rows, Success(IgnoredStale))
        case Replay =>
          if multiset(Candidate(daily, identity)) != multiset(rows.value) then (rows, Failure(ReplayDiffers))
          else (rows, Success(Ready(Replay, |rows.value|)))
        case Create => (Some(Candidate(daily, identity)), Success(Ready(Create, |daily|)))
        case Replace => (Some(Candidate(daily, identity)), Success(Ready(Replace, |daily|)))
  }

  // ---------------------------------------------------------------- any run of publications

  datatype Snapshot = Snapshot(identity: SnapshotIdentity, daily: seq<DailyRow>)

  function PublishAll(rows: Option<seq<MartRow>>, snapshots: seq<Snapshot>): Option<seq<MartRow>> {
    if snapshots == [] then rows
    else
      var before := PublishAll(rows, snapshots[..|snapshots| - 1]);
      var last := snapshots[|snapshots| - 1];
      Publish(before, last.daily, last.identity).0
  }

  function DailyOf(rows: seq<MartRow>): seq<DailyRow> {
    Map(rows, (r: MartRow) => r.daily)
  }

  /** The mart holds exactly the daily rows of the snapshot, each with the snapshot's identity. */
  ghost predicate Shows(rows: Option<seq<MartRow>>, s: Snapshot) {
    && rows != None && rows.value != []
    && multiset(DailyOf(rows.value)) == multiset(s.daily)
    && forall r :: r in rows.value ==> r.identity == s.identity
  }

  lemma ShowsCandidate(rows: seq<MartRow>, s: Snapshot)
    ensures Shows(Some(rows), s) <==> rows != [] && multiset(rows) == multiset(Candidate(s.daily, s.identity))
  {
    if Shows(Some(rows), s) {
      assert forall i :: 0 <= i < |rows| ==> rows[i] in rows;
      assert rows == Candidate(DailyOf(rows), s.identity);
      SameCandidate(DailyOf(rows), s.daily, s.identity);
    }
    if rows != [] && multiset(rows) == multiset(Candidate(s.daily, s.identity)) {
      MapOfBag(rows, Candidate(s.daily, s.identity), (r: MartRow) => r.daily);
      assert DailyOf(Candidate(s.daily, s.identity)) == s.daily;
      SameBagSameRows(rows, Candidate(s.daily, s.identity));
    }
  }

  lemma ShownIdentity(rows: seq<MartRow>, s: Snapshot)
    requires Shows(Some(rows), s)
    ensures StoredIdentity(rows) == Some(s.identity)
  {
    forall i | 0 <= i < |rows| ensures rows[i].identity == s.identity {
      assert rows[i] in rows;
    }
  }

  /** A snapshot that the job takes: every row has a day and the batch's identifier, no day twice. */
  predicate Complete(s: Snapshot) {
    && s.daily != [] && (forall r | r in s.daily :: r.day != None && r.batch == Some(s.identity.id))
    && (forall i, j | 0 <= i < j < |s.daily| :: s.daily[i].day != s.daily[j].day)
  }

  lemma CompleteExactly(s: Snapshot)
    ensures Complete(s) <==> OfSnapshot(s.daily, s.identity) && !RepeatsDay(s.daily)
  {
    assert forall i :: 0 <= i < |s.daily| ==> s.daily[i] in s.daily;
  }

  /** Two snapshots of one time are one snapshot, read in any order. */
  ghost predicate Compatible(a: Snapshot, b: Snapshot) {
    a.identity.at == b.identity.at ==> a.identity == b.identity && multiset(a.daily) == multiset(b.daily)
  }

  /** Complete snapshots, one content an identity, one identity a time. */
  ghost predicate Coherent(snapshots: seq<Snapshot>) {
    && (forall s :: s in snapshots ==> Complete(s))
    && (forall a, b :: a in snapshots && b in snapshots ==> Compatible(a, b))
  }

  function Later(shown: Snapshot, next: Snapshot): Snapshot {
    if next.identity.at < shown.identity.at then shown else next
  }

  /** One publication over a shown snapshot leaves the later of the two. */
  lemma PublishOver(rows: seq<MartRow>, shown: Snapshot, next: Snapshot)
    requires Shows(Some(rows), shown) && Complete(next) && Compatible(shown, next)
    ensures var (after, result) := Publish(Some(rows), next.daily, next.identity);
      result.Success? && Shows(after, Later(shown, next))
  {
    CompleteExactly(next);
    ShownIdentity(rows, shown);
    ShowsCandidate(rows, shown);
    ShowsCandidate(Candidate(next.daily, next.identity), next);
    if next.identity.at == shown.identity.at {
      SameCandidate(next.daily, shown.daily, next.identity);
    }
  }

  /** Order independence: whatever the order and the repetitions, every publication succeeds and
      the mart ends up with the rows and identity of the effective-latest snapshot. */
  lemma {:induction false} LatestSnapshotShown(snapshots: seq<Snapshot>) returns (latest: Snapshot)
    requires Coherent(snapshots) && snapshots != []
    ensures latest in snapshots && forall s :: s in snapshots ==> s.identity.at <= latest.identity.at
    ensures Shows(PublishAll(None, snapshots), latest)
    ensures var last := snapshots[|snapshots| - 1];
      Publish(PublishAll(None, snapshots[..|snapshots| - 1]), last.daily, last.identity).1.Success?
  {
    var before, last := snapshots[..|snapshots| - 1], snapshots[|snapshots| - 1];
    assert last in snapshots && forall s :: s in before ==> s in snapshots;
    assert forall s :: s in snapshots ==> s in before || s == last;
    if before == [] {
      CompleteExactly(last);
      ShowsCandidate(Candidate(last.daily, last.identity), last);
      latest := last;
    } else {
      var shown := LatestSnapshotShown(before);
      PublishOver(PublishAll(None, before).value, shown, last);
      latest := Later(shown, last);
    }
  }

  /** The stored time never decreases and a replay changes no row, for any publication at all. */
  lemma StoredTimeNeverDecreases(rows: seq<MartRow>, daily: seq<DailyRow>, identity: SnapshotIdentity)
    requires StoredIdentity(rows) != None
    ensures var (after, result) := Publish(Some(rows), daily, identity);
      && after != None && StoredIdentity(after.value) != None
      && StoredIdentity(rows).value.at <= StoredIdentity(after.value).value.at
      && (after != Some(rows) ==> StoredIdentity(after.value) == Some(identity) && result == Success(Ready(Replace, |daily|)))
      && (identity.at <= StoredIdentity(rows).value.at ==> after == Some(rows))
  {
  }

  /** Two reads of the daily rows make the same mart exactly when they are the same bag. */
  lemma SameCandidate(a: seq<DailyRow>, b: seq<DailyRow>, identity: SnapshotIdentity)
    ensures multiset(Candidate(a, identity)) == multiset(Candidate(b, identity)) <==> multiset(a) == multiset(b)
  {
    if multiset(a) == multiset(b) {
      MapOfBag(a, b, (d: DailyRow) => MartRow(d, identity));
    }
    if multiset(Candidate(a, identity)) == multiset(Candidate(b, identity)) {
      MapOfBag(Candidate(a, identity), Candidate(b, identity), (r: MartRow) => r.daily);
      assert Map(Candidate(a, identity), (r: MartRow) => r.daily) == a;
      assert Map(Candidate(b, identity), (r: MartRow) => r.daily) == b;
    }
  }

  // ---------------------------------------------------------------- the table

  ghost predicate ShownBy(rows: Option<seq<MartRow>>, shown: Option<Snapshot>) {
    match shown
    case None => rows == None
    case Some(s) => Shows(rows, s)
  }

  ghost predicate Acceptable(shown: Option<Snapshot>, next: Snapshot) {
    Complete(next) && (shown == None || Compatible(shown.value, next))
  }

  /** One publication on a table that shows a snapshot, or on none: it is refused exactly when it is
      incomplete or conflicts with what is shown, and otherwise leaves the later of the two. */
  lemma PublishExactly(rows: Option<seq<MartRow>>, shown: Option<Snapshot>, next: Snapshot)
    requires ShownBy(rows, shown)
    ensures var (after, result) := Publish(rows, next.daily, next.identity);
      && (result.Success? <==> Acceptable(shown, next))
      && (result.Success? ==> Shows(after, if shown == None then next else Later(shown.value, next)))
      && (result.Failure? ==> after == rows)
  {
    CompleteExactly(next);
    if shown == None {
      ShowsCandidate(Candidate(next.daily, next.identity), next);
    } else {
      ShownIdentity(rows.value, shown.value);
      ShowsCandidate(rows.value, shown.value);
      if Complete(next) && Compatible(shown.value, next) {
        PublishOver(rows.value, shown.value, next);
      }
      if next.identity == shown.value.identity {
        SameCandidate(next.daily, shown.value.daily, next.identity);
      }
    }
  }

  class CurrentTable {
    /** None until the table exists. */
    var rows: Option<seq<MartRow>>

    constructor ()
      ensures rows == None && ShownBy(rows, None)
    {
      rows := None;
    }

    /** One publication, on a table that shows `shown`. */
    method PublishSnapshot(daily: seq<DailyRow>, identity: SnapshotIdentity, ghost shown: Option<Snapshot>) returns (result: Result<Published, MartError>)
      modifies this
      ensures (rows, result) == Publish(old(rows), daily, identity)
      ensures result.Failure? ==> rows == old(rows)
      ensures ShownBy(old(rows), shown) ==> (result.Success? <==> Acceptable(shown, Snapshot(identity, daily)))
      ensures ShownBy(old(rows), shown) && result.Success? ==>
        Shows(rows, if shown == None then Snapshot(identity, daily) else Later(shown.value, Snapshot(identity, daily)))
      ensures old(rows) != None && StoredIdentity(old(rows).value) != None ==>
        && rows != None && StoredIdentity(rows.value) != None
        && StoredIdentity(old(rows).value).value.at <= StoredIdentity(rows.value).value.at
        && (identity.at <= StoredIdentity(old(rows).value).value.at ==> rows == old(rows))
    {
      if ShownBy(rows, shown) {
        PublishExactly(rows, shown, Snapshot(identity, daily));
      }
      if rows != None && StoredIdentity(rows.value) != None {
        StoredTimeNeverDecreases(rows.value, daily, identity);
      }
      var candidate := Candidate(daily, identity);
      if !OfSnapshot(daily, identity) { return Failure(NotTheSnapshot); }
      if RepeatsDay(daily) { return Failure(RepeatedDay); }
      var current := None;
      if rows != None {
        current := StoredIdentity(rows.value);
        if current == None { return Failure(MixedIdentities); }
      }
      var action := SnapshotAction(current, identity);
      if action.Failure? { return Failure(action.error); }
      if action.value == Stale { return Success(IgnoredStale); }
      if action.value == Replay {
        if multiset(candidate) != multiset(rows.value) { return Failure(ReplayDiffers); }
      } else {
        rows := Some(candidate);
      }
      result := Success(Ready(action.value, |rows.value|));
    }
  }

  // ---------------------------------------------------------------- when order matters

  /** The table as it is after publishing first a, then b. */
  function InOrder(a: Snapshot, b: Snapshot): Option<seq<MartRow>> {
    PublishAll(None, [a, b])
  }

  lemma InOrderShows(a: Snapshot, b: Snapshot)
    requires Complete(a) && Complete(b)
    ensures Shows(InOrder(a, b), if Compatible(a, b) then Later(a, b) else a)
  {
    var first := Publish(None, a.daily, a.identity).0;
    assert [a, b][..1] == [a] && [a][..0] == [];
    assert PublishAll(None, [a]) == first;
    PublishExactly(None, None, a);
    PublishExactly(first, Some(a), b);
  }

  lemma SameMartSameSnapshot(rows: seq<MartRow>, a: Snapshot, b: Snapshot)
    requires Shows(Some(rows), a)
    ensures Shows(Some(rows), b) <==> a.identity == b.identity && multiset(a.daily) == multiset(b.daily)
  {
    ShownIdentity(rows, a);
    ShowsCandidate(rows, a);
    ShowsCandidate(rows, b);
    SameCandidate(a.daily, b.daily, a.identity);
    if Shows(Some(rows), b) {
      ShownIdentity(rows, b);
    }
  }

  /** Exactly when order does not matter for two complete snapshots: they have different times, or
      are the same snapshot. Two of one time leave whichever came first. */
  lemma OrderMattersExactly(a: Snapshot, b: Snapshot)
    requires Complete(a) && Complete(b)
    ensures InOrder(a, b) != None && InOrder(b, a) != None
    ensures multiset(InOrder(a, b).value) == multiset(InOrder(b, a).value) <==>
      a.identity.at != b.identity.at || (a.identity == b.identity && multiset(a.daily) == multiset(b.daily))
  {
    var x, y := if Compatible(a, b) then Later(a, b) else a, if Compatible(a, b) then Later(b, a) else b;
    InOrderShows(a, b);
    InOrderShows(b, a);
    ShowsCandidate(InOrder(a, b).value, y);
    ShowsCandidate(InOrder(b, a).value, y);
    SameMartSameSnapshot(InOrder(a, b).value, x, y);
  }

  /** Batches 1 and 2 both claim time 0, each with one day of its own: the mart keeps the first. */
  lemma TwoIdentitiesAtOneTime(one: DailyRow, two: DailyRow)
    requires one.batch == Some(1) && two.batch == Some(2) && one.day != None && two.day != None
    ensures var a, b := Snapshot(SnapshotIdentity(1, 0, 1), [one]), Snapshot(SnapshotIdentity(2, 0, 2), [two]);
      && Shows(InOrder(a, b), a) && Shows(InOrder(b, a), b)
      && multiset(InOrder(a, b).value) != multiset(InOrder(b, a).value)
  {
    var a, b := Snapshot(SnapshotIdentity(1, 0, 1), [one]), Snapshot(SnapshotIdentity(2, 0, 2), [two]);
    assert Complete(a) && Complete(b) && !Compatible(a, b) && !Compatible(b, a);
    InOrderShows(a, b);
    InOrderShows(b, a);
    OrderMattersExactly(a, b);
  }
}
