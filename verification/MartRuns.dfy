/** The rows of the current mart along a run of the batch protocol, which itself keeps only the
    identity of the snapshot that the mart shows. */
module MartRuns {
  import opened Types
  import opened BatchProtocol
  import opened BatchRuns
  import D = DailyGold
  import H = HistorySpec
  import M = CurrentMart
  import P = BatchPlanner

  /** The step runs the stage that publishes the mart. */
  predicate PublishesMart(s: State, step: Step) {
    && step.RunStage? && s.run.Staging? && s.run.done < |StagesFor(s.run.mode)|
    && StagesFor(s.run.mode)[s.run.done] == CurrentGold
  }

  /** The rows after the first n steps; readAt(i) are the daily rows that step i reads. */
  function MartRows(states: seq<State>, steps: seq<Step>, readAt: nat -> seq<D.DailyRow>, n: nat): Option<seq<M.MartRow>>
    requires n <= |steps| < |states|
  {
    if n == 0 then None
    else
      var before := MartRows(states, steps, readAt, n - 1);
      if PublishesMart(states[n - 1], steps[n - 1]) then M.Publish(before, readAt(n - 1), IdentityOf(states[n - 1].run.batch)).0 else before
  }

  /** A read finds the complete daily rows of its batch, in whatever order. */
  ghost predicate ReadsDaily(daily: M.SnapshotIdentity -> seq<D.DailyRow>, b: P.Batch, read: seq<D.DailyRow>) {
    M.Complete(M.Snapshot(IdentityOf(b), read)) && multiset(read) == multiset(daily(IdentityOf(b)))
  }

  ghost predicate AllReadDaily(daily: M.SnapshotIdentity -> seq<D.DailyRow>, states: seq<State>, steps: seq<Step>, readAt: nat -> seq<D.DailyRow>)
    requires |steps| < |states|
  {
    forall i: nat :: i < |steps| && PublishesMart(states[i], steps[i]) ==> ReadsDaily(daily, states[i].run.batch, readAt(i))
  }

  ghost function ShownOf(daily: M.SnapshotIdentity -> seq<D.DailyRow>, mart: Option<M.SnapshotIdentity>): Option<M.Snapshot> {
    if mart == None then None else Some(M.Snapshot(mart.value, daily(mart.value)))
  }

  /** The rows are the daily rows of the snapshot that the protocol says the mart shows. */
  ghost predicate Follows(daily: M.SnapshotIdentity -> seq<D.DailyRow>, mart: Option<M.SnapshotIdentity>, rows: Option<seq<M.MartRow>>) {
    M.ShownBy(rows, ShownOf(daily, mart))
  }

  /** Publishing the rows succeeds when the protocol's stage does, and follows it. */
  lemma PublicationFollows(daily: M.SnapshotIdentity -> seq<D.DailyRow>, s: State, b: P.Batch, rows: Option<seq<M.MartRow>>, read: seq<D.DailyRow>)
    requires Follows(daily, s.mart, rows) && ReadsDaily(daily, b, read)
    ensures M.Publish(rows, read, IdentityOf(b)).1.Success? <==> CurrentGoldEffect(s, b).ok
    ensures Follows(daily, CurrentGoldEffect(s, b).mart, M.Publish(rows, read, IdentityOf(b)).0)
  {
    var next := M.Snapshot(IdentityOf(b), read);
    M.PublishExactly(rows, ShownOf(daily, s.mart), next);
    M.SameCandidate(read, daily(IdentityOf(b)), IdentityOf(b));
  }

  lemma StepFollows(daily: M.SnapshotIdentity -> seq<D.DailyRow>, digestOf: H.Attributes -> Digest, s: State, s': State, step: Step,
                    rows: Option<seq<M.MartRow>>, read: seq<D.DailyRow>)
    requires Next(digestOf, s, s', step) && Follows(daily, s.mart, rows)
    requires PublishesMart(s, step) ==> ReadsDaily(daily, s.run.batch, read)
    ensures Follows(daily, s'.mart, if PublishesMart(s, step) then M.Publish(rows, read, IdentityOf(s.run.batch)).0 else rows)
  {
    if PublishesMart(s, step) {
      PublicationFollows(daily, s, s.run.batch, rows, read);
    } else {
      assert s'.mart == s.mart;
    }
  }

  /** In every run, after every step, the mart has exactly the daily rows of the snapshot that the
      protocol's state names. */
  lemma {:induction false} MartRowsFollow(daily: M.SnapshotIdentity -> seq<D.DailyRow>, digestOf: H.Attributes -> Digest,
                                          states: seq<State>, steps: seq<Step>, readAt: nat -> seq<D.DailyRow>, n: nat)
    requires Behaviour(digestOf, states, steps) && n <= |steps| && AllReadDaily(daily, states, steps, readAt)
    ensures Follows(daily, states[n].mart, MartRows(states, steps, readAt, n))
  {
    if n > 0 {
      MartRowsFollow(daily, digestOf, states, steps, readAt, n - 1);
      assert Next(digestOf, states[n - 1], states[n], steps[n - 1]);
      StepFollows(daily, digestOf, states[n - 1], states[n], steps[n - 1], MartRows(states, steps, readAt, n - 1), readAt(n - 1));
    }
  }

  /** So a finished run over full snapshots shows the rows of the latest checkpointed batch. */
  lemma MartShowsLatest(daily: M.SnapshotIdentity -> seq<D.DailyRow>, digestOf: H.Attributes -> Digest,
                        states: seq<State>, steps: seq<Step>, readAt: nat -> seq<D.DailyRow>, some: Landing) returns (latest: Landing)
    requires Behaviour(digestOf, states, steps) && AllReadDaily(daily, states, steps, readAt) && DistinctSnapshots(states[|steps|].landed)
    requires forall b :: !Holding(states[|steps|], b)
    requires some in states[|steps|].landed && some.batch.id in states[|steps|].processed
    ensures latest in states[|steps|].landed && latest.batch.id in states[|steps|].processed
    ensures forall l :: l in states[|steps|].landed && l.batch.id in states[|steps|].processed ==> l.batch.at <= latest.batch.at
    ensures M.Shows(MartRows(states, steps, readAt, |steps|), M.Snapshot(IdentityOf(latest.batch), daily(IdentityOf(latest.batch))))
    ensures forall r :: r in MartRows(states, steps, readAt, |steps|).value ==>
      r.identity.id == latest.batch.id && r.identity.at == latest.batch.at && r.identity.manifest == latest.batch.manifest
  {
    var s := states[|steps|];
    Convergence(digestOf, states, steps);
    MartRowsFollow(daily, digestOf, states, steps, readAt, |steps|);
    latest :| latest in s.landed && latest.batch.id in s.processed.Keys && IdentityOf(latest.batch) == s.mart.value;
  }
}
