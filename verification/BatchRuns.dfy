/** What every run of the batch protocol guarantees: convergence of the published tables, pinned
    reservations, a safe checkpoint, and recovery from any reachable state. */
module BatchRuns {
  import opened Types
  import opened Frames
  import opened Paths
  import opened BatchProtocol
  import opened BatchConvergence
  import SC = SilverCustomers
  import H = HistorySpec
  import J = HistoryJob
  import T = HistoryTheorems
  import P = BatchPlanner

  // ---------------------------------------------------------------- convergence

  /** The history and the mart reflect exactly the batches with these identifiers. */
  ghost predicate Published(digestOf: H.Attributes -> Digest, s: State, ids: set<BatchId>) {
    HistoryOf(digestOf, s, ids) && LatestOf(s.landed, ids, s.mart)
  }

  /** Whole-run convergence. In every interleaving of arrivals, runner steps and crashes over
      declared full snapshots with distinct times: without an unfinished reservation the history is
      that of exactly the checkpointed batches and the mart shows their latest; with one, each table
      either has that state or has it with the reserved batch added. */
  lemma Convergence(digestOf: H.Attributes -> Digest, states: seq<State>, steps: seq<Step>)
    requires Behaviour(digestOf, states, steps) && DistinctSnapshots(states[|steps|].landed)
    ensures var s := states[|steps|];
      && ((forall b :: !Holding(s, b)) ==> Published(digestOf, s, s.processed.Keys))
      && (forall b :: Holding(s, b) ==>
        && (HistoryOf(digestOf, s, s.processed.Keys) || HistoryOf(digestOf, s, s.processed.Keys + {b.id}))
        && (LatestOf(s.landed, s.processed.Keys, s.mart) || LatestOf(s.landed, s.processed.Keys + {b.id}, s.mart)))
  {
    var s := states[|steps|];
    Reachable(digestOf, states, steps, |steps|);
    forall b | Holding(s, b)
      ensures HistoryOf(digestOf, s, s.processed.Keys) || HistoryOf(digestOf, s, s.processed.Keys + {b.id})
      ensures LatestOf(s.landed, s.processed.Keys, s.mart) || LatestOf(s.landed, s.processed.Keys + {b.id}, s.mart)
    {
      ListingOf(s.landed);
      var l :| l in s.landed && l.batch == b;
      HistoryIsOneOfTwo(digestOf, s, l);
      MartIsOneOfTwo(s, l);
    }
  }

  /** In other words the history table is, as a bag of rows, what one rebuild would compute from the
      checkpointed batches' valid customer rows, listed in any order. */
  lemma ConvergedHistoryIsTheRebuild(digestOf: H.Attributes -> Digest, states: seq<State>, steps: seq<Step>, source: seq<H.Observation>)
    requires Behaviour(digestOf, states, steps) && DistinctSnapshots(states[|steps|].landed)
    requires forall b :: !Holding(states[|steps|], b)
    requires J.Rows(source) == Known(digestOf, states[|steps|].landed, states[|steps|].processed.Keys) && NoDuplicates(source)
    ensures multiset(states[|steps|].history) == multiset(J.RebuiltRows(source))
  {
    var s := states[|steps|];
    Convergence(digestOf, states, steps);
    LandedInRun(digestOf, states, steps);
    KnownIsUnambiguous(digestOf, s.landed, s.processed.Keys);
    forall i, j | 0 <= i < j < |source| ensures !(source[i].customer == source[j].customer && source[i].at == source[j].at) {
      assert source[i] in J.Rows(source) && source[j] in J.Rows(source);
    }
    T.RebuildHolds(source);
    T.SameBagHolds(J.RebuiltRows(source), s.history, J.Rows(source));
  }

  lemma LandedInRun(digestOf: H.Attributes -> Digest, states: seq<State>, steps: seq<Step>)
    requires Behaviour(digestOf, states, steps)
    ensures LandedOk(states[|steps|].landed)
  {
    Reachable(digestOf, states, steps, |steps|);
  }

  lemma HoldingAnswers(rows: seq<H.Version>, known: set<H.Observation>, c: CustomerId, t: Instant, p: H.Observation)
    requires H.Unambiguous(known) && T.Holds(rows, known) && H.Latest(known, c, t, p)
    ensures H.AnswersWith(J.Rows(rows), c, t, p.digest) && H.NeverOverlaps(J.Rows(rows))
  {
    H.HistoryAnswers(known);
    assert J.Rows(rows) == H.History(known);
  }

  /** The current version that a finished run shows for a customer is the customer's last
      checkpointed observation, and point-in-time reads are answered from the checkpointed batches. */
  lemma ConvergedHistoryAnswers(digestOf: H.Attributes -> Digest, states: seq<State>, steps: seq<Step>, c: CustomerId, t: Instant, p: H.Observation)
    requires Behaviour(digestOf, states, steps) && DistinctSnapshots(states[|steps|].landed)
    requires forall b :: !Holding(states[|steps|], b)
    requires H.Latest(Known(digestOf, states[|steps|].landed, states[|steps|].processed.Keys), c, t, p)
    ensures H.AnswersWith(J.Rows(states[|steps|].history), c, t, p.digest) && H.NeverOverlaps(J.Rows(states[|steps|].history))
  {
    var s := states[|steps|];
    Convergence(digestOf, states, steps);
    LandedInRun(digestOf, states, steps);
    KnownIsUnambiguous(digestOf, s.landed, s.processed.Keys);
    HoldingAnswers(s.history, Known(digestOf, s.landed, s.processed.Keys), c, t, p);
  }

  // ---------------------------------------------------------------- reservations

  lemma StepAdvances(digestOf: H.Attributes -> Digest, s: State, s': State, step: Step)
    requires Inv(digestOf, s) && Next(digestOf, s, s', step)
    ensures s'.processed == s.processed || (step == Replace(true) && Advances(s, s'))
  {
  }

  /** The verified batch, which the runner holds, enters the checkpoint with the manifest and time
      it landed with. */
  ghost predicate Advances(s: State, s': State) {
    && s.run.Verified? && Holding(s, s.run.batch)
    && s'.processed == s.processed[s.run.batch.id := P.MarkOf(s.run.batch)]
  }

  lemma StepKeepsIntent(digestOf: H.Attributes -> Digest, s: State, s': State, step: Step, b: P.Batch)
    requires Inv(digestOf, s) && Next(digestOf, s, s', step) && Holding(s, b)
    ensures s'.intent == s.intent
  {
  }

  lemma StepKeepsLanded(digestOf: H.Attributes -> Digest, s: State, s': State, step: Step)
    requires Next(digestOf, s, s', step)
    ensures s'.landed == s.landed || exists l :: s'.landed == s.landed + [l]
  {
  }

  lemma StepKeepsReservation(digestOf: H.Attributes -> Digest, s: State, s': State, step: Step, b: P.Batch)
    requires Inv(digestOf, s) && Next(digestOf, s, s', step) && Holding(s, b)
    ensures b.id in s'.processed || (Holding(s', b) && s'.processed == s.processed && s'.intent == s.intent)
  {
    StepKeepsIntent(digestOf, s, s', step, b);
    StepKeepsLanded(digestOf, s, s', step);
    StepAdvances(digestOf, s, s', step);
    if l :| s'.landed == s.landed + [l] {
      ListingGrows(s.landed, l);
    }
    if s'.processed != s.processed {
      ListingIds(s.landed);
      P.OneReserved(Listing(s.landed), s.processed, s.intent, s.run.batch, b);
    }
  }

  ghost predicate Unmoved(s: State, s': State, b: P.Batch) {
    Holding(s', b) && s'.processed == s.processed && s'.intent == s.intent
  }

  lemma ReservationKept(digestOf: H.Attributes -> Digest, states: seq<State>, steps: seq<Step>, n: nat, b: P.Batch)
    requires Behaviour(digestOf, states, steps) && n < |steps| && Holding(states[n], b)
    ensures b.id in states[n + 1].processed || Unmoved(states[n], states[n + 1], b)
  {
    Reachable(digestOf, states, steps, n);
    StepKeepsReservation(digestOf, states[n], states[n + 1], steps[n], b);
  }

  /** A reservation, once made, stays until its batch is checkpointed, and until then neither the
      checkpoint nor the intent changes, whatever arrives and however often the runner dies. */
  lemma {:induction false} ReservationStays(digestOf: H.Attributes -> Digest, states: seq<State>, steps: seq<Step>, i: nat, j: nat, b: P.Batch)
    requires Behaviour(digestOf, states, steps) && i <= j <= |steps|
    requires Holding(states[i], b) && b.id !in states[j].processed
    ensures Holding(states[j], b) && states[j].processed == states[i].processed && states[j].intent == states[i].intent
  {
    if i < j {
      if b.id in states[j - 1].processed {
        CheckpointOnlyGrows(digestOf, states, steps, j - 1, j, b.id);
      } else {
        ReservationStays(digestOf, states, steps, i, j - 1, b);
        ReservationKept(digestOf, states, steps, j - 1, b);
      }
    }
  }

  /** Reservation pins the retry: until the checkpoint has the batch, every plan starts with it,
      begin accepts it again, it runs in the mode it was first given, and commit accepts it and
      refuses every other unprocessed batch. */
  lemma ReservationPinsTheRetry(digestOf: H.Attributes -> Digest, states: seq<State>, steps: seq<Step>, i: nat, j: nat, b: P.Batch, maxBatches: int)
    requires Behaviour(digestOf, states, steps) && i <= j <= |steps| && maxBatches >= 1
    requires Holding(states[i], b) && b.id !in states[j].processed
    ensures var s, listing := states[j], Listing(states[j].landed);
      && P.Plan(listing, s.processed, s.intent, maxBatches, []).Success?
      && (var selected := P.Plan(listing, s.processed, s.intent, maxBatches, []).value.batches;
          0 < |selected| <= maxBatches && selected[0] == b)
      && P.Reserve(listing, s.processed, s.intent, b.id, b.manifest) == Success(s.intent)
      && P.ExecutionOptions(listing, s.processed, b.id, b.manifest) == Success(P.OptionsFor(b, states[i].processed))
      && P.Decide(listing, s.processed, s.intent, b.id, Some(b.manifest)) == Success(P.Advance(b, true))
      && (forall id, expected :: id != b.id && id !in s.processed ==> P.Decide(listing, s.processed, s.intent, id, expected).Failure?)
  {
    ReservationStays(digestOf, states, steps, i, j, b);
    Reachable(digestOf, states, steps, j);
    P.ReservationPins(Listing(states[j].landed), states[j].processed, states[j].intent, b, maxBatches);
  }

  // ---------------------------------------------------------------- the checkpoint

  lemma EntryKept(digestOf: H.Attributes -> Digest, states: seq<State>, steps: seq<Step>, n: nat, id: BatchId)
    requires Behaviour(digestOf, states, steps) && n < |steps| && id in states[n].processed
    ensures id in states[n + 1].processed && states[n + 1].processed[id] == states[n].processed[id]
  {
    Reachable(digestOf, states, steps, n);
    StepAdvances(digestOf, states[n], states[n + 1], steps[n]);
  }

  lemma {:induction false} CheckpointOnlyGrows(digestOf: H.Attributes -> Digest, states: seq<State>, steps: seq<Step>, i: nat, j: nat, id: BatchId)
    requires Behaviour(digestOf, states, steps) && i <= j <= |steps| && id in states[i].processed
    ensures id in states[j].processed && states[j].processed[id] == states[i].processed[id]
  {
    if i < j {
      CheckpointOnlyGrows(digestOf, states, steps, i, j - 1, id);
      EntryKept(digestOf, states, steps, j - 1, id);
    }
  }

  /** Every entry is of a landed batch and carries its manifest and time. */
  lemma CheckpointIsLanded(digestOf: H.Attributes -> Digest, states: seq<State>, steps: seq<Step>, id: BatchId)
    requires Behaviour(digestOf, states, steps) && id in states[|steps|].processed
    ensures exists l :: l in states[|steps|].landed && l.batch.id == id && P.MarkOf(l.batch) == states[|steps|].processed[id]
  {
    var s := states[|steps|];
    Reachable(digestOf, states, steps, |steps|);
    ListingOf(s.landed);
    var b :| b in Listing(s.landed) && b.id == id && P.MarkOf(b) == s.processed[id];
  }

  /** Stages that the runner has finished since it last resolved a mode. */
  ghost function Finished(states: seq<State>, steps: seq<Step>, n: nat): seq<Stage>
    requires n <= |steps| && |states| == |steps| + 1
  {
    if n == 0 then []
    else
      var r := states[n - 1].run;
      match steps[n - 1]
      case Land(_) => Finished(states, steps, n - 1)
      case RunStage(_, _) =>
        if states[n].run.Staging? && r.Staging? && r.done < |StagesFor(r.mode)| then
          Finished(states, steps, n - 1) + [StagesFor(r.mode)[r.done]]
        else []
      case VerifyGold(passed) => if passed then Finished(states, steps, n - 1) else []
      case _ => []
  }

  /** The runner's last step. */
  ghost function LastStep(steps: seq<Step>, n: nat): Option<Step>
    requires n <= |steps|
  {
    if n == 0 then None else if steps[n - 1].Land? then LastStep(steps, n - 1) else Some(steps[n - 1])
  }

  ghost predicate InStep(s: State, finished: seq<Stage>, last: Option<Step>) {
    match s.run
    case Staging(b, mode, done) => done <= |StagesFor(mode)| && finished == StagesFor(mode)[..done]
    case Verified(b) => finished == StagesFor(P.OptionsFor(b, s.processed)) && last == Some(VerifyGold(true))
    case _ => true
  }

  /** Where the runner's position comes from. */
  ghost predicate Continues(s: State, s': State, step: Step) {
    && (step.Land? ==> s'.run == s.run && s'.processed == s.processed)
    && (s'.run.Staging? && !step.Land? ==>
      || (s'.run.done == 0 && step.Resolve?)
      || (step.RunStage? && s.run.Staging? && s.run.done < |StagesFor(s.run.mode)|
          && s'.run == Staging(s.run.batch, s.run.mode, s.run.done + 1)))
    && (s'.run.Verified? && !step.Land? ==>
      && step == VerifyGold(true) && s.run.Staging? && s.run.done == |StagesFor(s.run.mode)|
      && s'.run.batch == s.run.batch && s'.processed == s.processed && s.run.mode == P.OptionsFor(s.run.batch, s.processed))
  }

  lemma StepContinues(digestOf: H.Attributes -> Digest, s: State, s': State, step: Step)
    requires RunOk(s) && Next(digestOf, s, s', step)
    ensures Continues(s, s', step)
  {
  }

  lemma RunContinues(digestOf: H.Attributes -> Digest, states: seq<State>, steps: seq<Step>, n: nat)
    requires Behaviour(digestOf, states, steps) && n < |steps|
    ensures Continues(states[n], states[n + 1], steps[n])
  {
    Reachable(digestOf, states, steps, n);
    StepContinues(digestOf, states[n], states[n + 1], steps[n]);
  }

  lemma FinishedStep(states: seq<State>, steps: seq<Step>, n: nat)
    requires |states| == |steps| + 1 && n < |steps| && Continues(states[n], states[n + 1], steps[n])
    requires InStep(states[n], Finished(states, steps, n), LastStep(steps, n))
    ensures InStep(states[n + 1], Finished(states, steps, n + 1), LastStep(steps, n + 1))
  {
  }

  lemma {:induction false} FinishedFollowsTheRun(digestOf: H.Attributes -> Digest, states: seq<State>, steps: seq<Step>, n: nat)
    requires Behaviour(digestOf, states, steps) && n <= |steps|
    ensures InStep(states[n], Finished(states, steps, n), LastStep(steps, n))
  {
    if n == 0 {
      assert states[0] == INITIAL;
    } else {
      FinishedFollowsTheRun(digestOf, states, steps, n - 1);
      RunContinues(digestOf, states, steps, n - 1);
      FinishedStep(states, steps, n - 1);
    }
  }

  /** Checkpoint run safety: every addition is one in-time replace by a runner that holds the
      reservation, has just passed the gold check, and before that finished every stage once, the
      mart exactly for a declared full snapshot, each after the stages whose tables it reads. */
  lemma AdvanceFollowsFullRun(digestOf: H.Attributes -> Digest, states: seq<State>, steps: seq<Step>, n: nat)
    requires Behaviour(digestOf, states, steps) && n < |steps| && states[n + 1].processed != states[n].processed
    ensures steps[n] == Replace(true) && states[n].run.Verified?
    ensures var b := states[n].run.batch;
      && Advances(states[n], states[n + 1]) && b.id !in states[n].processed
      && Finished(states, steps, n) == StagesFor(P.OptionsFor(b, states[n].processed))
      && WholePipeline(Finished(states, steps, n), b.fullSnapshot)
      && LastStep(steps, n) == Some(VerifyGold(true))
  {
    Reachable(digestOf, states, steps, n);
    StepAdvances(digestOf, states[n], states[n + 1], steps[n]);
    FinishedFollowsTheRun(digestOf, states, steps, n);
    StagesAreWhole(P.OptionsFor(states[n].run.batch, states[n].processed));
  }

  // ---------------------------------------------------------------- recovery

  /** Nothing lands, dies or fails, and no check runs out of time. */
  predicate Undisturbed(step: Step) {
    match step
    case Land(_) => false
    case StageFails => false
    case Crash => false
    case RunStage(_, lost) => !lost
    case VerifyGold(passed) => passed
    case Replace(inTime) => inTime
    case _ => true
  }

  ghost predicate Moves(digestOf: H.Attributes -> Digest, s: State, t: State) {
    exists step: Step :: Undisturbed(step) && Next(digestOf, s, t, step)
  }

  ghost function RunnerOf(digestOf: H.Attributes -> Digest): (State, State) -> bool {
    (s: State, t: State) => Moves(digestOf, s, t)
  }

  /** Every landing is a full snapshot with its own time and at least one valid customer. */
  ghost predicate Usable(landed: seq<Landing>) {
    DistinctSnapshots(landed) && forall l :: l in landed ==> SC.ValidRows(l.customers) != []
  }

  ghost predicate Sound(digestOf: H.Attributes -> Digest, s: State) {
    Inv(digestOf, s) && Usable(s.landed)
  }

  lemma BronzeNotEmpty(l: Landing, bronze: seq<SC.Customer>)
    requires SC.ValidRows(l.customers) != [] && multiset(bronze) == multiset(l.customers)
    ensures bronze != []
  {
    SameBagSameRows(bronze, l.customers);
  }

  lemma TableStageSucceeds(digestOf: H.Attributes -> Digest, s: State, l: Landing, bronze: seq<SC.Customer>)
    requires Sound(digestOf, s) && s.run.Staging? && s.run.done < |StagesFor(s.run.mode)|
    requires l in s.landed && l.batch == s.run.batch && multiset(bronze) == multiset(l.customers)
    ensures s.run.done == 5 ==> CustomerSilverEffect(s, l.batch, bronze).ok
    ensures s.run.done == 6 ==> CustomerScd2Effect(digestOf, s, l.batch, s.run.mode).ok
    ensures s.run.done == 8 ==> CurrentGoldEffect(s, l.batch).ok
  {
    if s.run.done == 5 {
      BronzeNotEmpty(l, bronze);
      CustomerSilverStage(s, l, bronze);
    } else if s.run.done == 6 {
      assert Past(s, l.batch, AFTER_CUSTOMER_SILVER);
      CustomerScd2Stage(digestOf, s, l);
    } else if s.run.done == 8 {
      CurrentGoldStage(s, l);
    }
  }

  lemma AfterGoodStage(digestOf: H.Attributes -> Digest, s: State, bronze: seq<SC.Customer>)
    requires s.run.Staging? && s.run.done < |StagesFor(s.run.mode)|
    requires s.run.done == 5 ==> CustomerSilverEffect(s, s.run.batch, bronze).ok
    requires s.run.done == 6 ==> CustomerScd2Effect(digestOf, s, s.run.batch, s.run.mode).ok
    requires s.run.done == 8 ==> CurrentGoldEffect(s, s.run.batch).ok
    ensures AfterStage(digestOf, s, bronze, false).run == Staging(s.run.batch, s.run.mode, s.run.done + 1)
  {
  }

  /** No stage rejects a usable batch in any reachable state, first time or retried, in whatever
      order it reads the bronze rows. */
  lemma StageSucceeds(digestOf: H.Attributes -> Digest, s: State, l: Landing, bronze: seq<SC.Customer>)
    requires Sound(digestOf, s) && s.run.Staging? && s.run.done < |StagesFor(s.run.mode)|
    requires l in s.landed && l.batch == s.run.batch && multiset(bronze) == multiset(l.customers)
    ensures AfterStage(digestOf, s, bronze, false).run == Staging(s.run.batch, s.run.mode, s.run.done + 1)
  {
    TableStageSucceeds(digestOf, s, l, bronze);
    AfterGoodStage(digestOf, s, bronze);
  }

  ghost function Unprocessed(s: State): set<BatchId> {
    set l | l in s.landed && l.batch.id !in s.processed :: l.batch.id
  }

  /** Steps that an undisturbed runner still needs: fifteen a batch, less those already taken. */
  ghost function Left(s: State): int {
    15 * |Unprocessed(s)| +
    match s.run
    case Idle => 0
    case Planned(_) => -1
    case Begun(_) => -2
    case Staging(_, _, done) => -3 - done
    case Verified(_) => -13
    case Replaced(_) => 1
  }

  ghost predicate CanBegin(s: State, b: P.Batch) {
    b in Listing(s.landed) && b.id !in s.processed && P.Reserve(Listing(s.landed), s.processed, s.intent, b.id, b.manifest).Success?
  }

  /** A sound state whose plan, if any, is not outdated. */
  ghost predicate OnTrack(digestOf: H.Attributes -> Digest, landed: seq<Landing>, s: State) {
    Sound(digestOf, s) && s.landed == landed && (s.run.Planned? ==> CanBegin(s, s.run.batch))
  }

  ghost predicate Helps(digestOf: H.Attributes -> Digest, landed: seq<Landing>, s: State, m: State) {
    OnTrack(digestOf, landed, m) && Left(m) == Left(s) - 1
  }

  lemma SameLeft(s: State, m: State)
    requires m.landed == s.landed && m.processed == s.processed
    ensures Unprocessed(m) == Unprocessed(s)
  {
  }

  lemma StageHelps(digestOf: H.Attributes -> Digest, s: State, m: State, l: Landing, bronze: seq<SC.Customer>)
    requires Sound(digestOf, s) && s.run.Staging? && s.run.done < |StagesFor(s.run.mode)|
    requires l in s.landed && l.batch == s.run.batch && multiset(bronze) == multiset(l.customers)
    requires m == AfterStage(digestOf, s, bronze, false)
    ensures Helps(digestOf, s.landed, s, m)
  {
    StageSucceeds(digestOf, s, l, bronze);
    StageKeeps(digestOf, s, bronze, false, l);
    SameLeft(s, m);
  }

  lemma PlanChooses(s: State)
    requires FilesOk(s) && Unprocessed(s) != {}
    ensures AfterPlan(s).run.Planned? && AfterPlan(s) == s.(run := AfterPlan(s).run) && CanBegin(s, AfterPlan(s).run.batch)
  {
    ListingOf(s.landed);
    var id :| id in Unprocessed(s);
    var l :| l in s.landed && l.batch.id !in s.processed && l.batch.id == id;
    P.PlannedCanBegin(Listing(s.landed), s.processed, s.intent, l.batch);
  }

  lemma ListedIsUnprocessed(s: State, batches: seq<P.Batch>)
    requires FilesOk(s) && forall b :: b in batches ==> b in Listing(s.landed) && b.id !in s.processed
    ensures batches != [] ==> Unprocessed(s) != {}
  {
    ListingOf(s.landed);
    if batches != [] {
      assert batches[0] in batches;
      var l :| l in s.landed && l.batch == batches[0];
      assert l.batch.id in Unprocessed(s);
    }
  }

  /** With nothing unprocessed there is nothing to plan. */
  lemma PlanRests(s: State)
    requires FilesOk(s) && Unprocessed(s) == {}
    ensures AfterPlan(s) == s
  {
    P.PlannedIsListed(Listing(s.landed), s.processed, s.intent, 1);
    ListedIsUnprocessed(s, P.Plan(Listing(s.landed), s.processed, s.intent, 1, []).value.batches);
  }

  lemma PlanAdvances(digestOf: H.Attributes -> Digest, s: State, m: State)
    requires Inv(digestOf, s) && s.run.Idle? && m == AfterPlan(s) && m.run.Planned? && m == s.(run := m.run)
    ensures Inv(digestOf, m) && Left(m) == Left(s) - 1
  {
    PlanKeeps(digestOf, s);
    SameLeft(s, m);
  }

  lemma PlanHelps(digestOf: H.Attributes -> Digest, s: State, m: State)
    requires Sound(digestOf, s) && s.run.Idle? && Unprocessed(s) != {} && m == AfterPlan(s)
    ensures Helps(digestOf, s.landed, s, m)
  {
    PlanChooses(s);
    PlanAdvances(digestOf, s, m);
  }

  lemma BeginHelps(digestOf: H.Attributes -> Digest, s: State, m: State)
    requires Sound(digestOf, s) && s.run.Planned? && CanBegin(s, s.run.batch) && m == AfterBegin(s)
    ensures Helps(digestOf, s.landed, s, m)
  {
    BeginKeeps(digestOf, s);
    SameLeft(s, m);
  }

  lemma ResolveSucceeds(s: State)
    requires FilesOk(s) && RunOk(s) && s.run.Begun?
    ensures AfterResolve(s) == s.(run := Staging(s.run.batch, P.OptionsFor(s.run.batch, s.processed), 0))
  {
    P.OptionsPin(Listing(s.landed), s.processed, s.intent, s.run.batch);
  }

  lemma ResolveAdvances(digestOf: H.Attributes -> Digest, s: State, m: State)
    requires Inv(digestOf, s) && s.run.Begun? && m == AfterResolve(s)
    requires m == s.(run := Staging(s.run.batch, P.OptionsFor(s.run.batch, s.processed), 0))
    ensures Inv(digestOf, m) && Left(m) == Left(s) - 1
  {
    ResolveKeeps(digestOf, s);
    SameLeft(s, m);
  }

  lemma ResolveHelps(digestOf: H.Attributes -> Digest, s: State, m: State)
    requires Sound(digestOf, s) && s.run.Begun? && m == AfterResolve(s)
    ensures Helps(digestOf, s.landed, s, m)
  {
    ResolveSucceeds(s);
    ResolveAdvances(digestOf, s, m);
  }

  lemma NineStages(digestOf: H.Attributes -> Digest, s: State)
    requires Sound(digestOf, s) && s.run.Staging?
    ensures |StagesFor(s.run.mode)| == 9
  {
  }

  lemma VerifyAdvances(digestOf: H.Attributes -> Digest, s: State, m: State)
    requires Sound(digestOf, s) && s.run.Staging? && s.run.done == |StagesFor(s.run.mode)| && m == s.(run := Verified(s.run.batch))
    ensures Inv(digestOf, m) && Left(m) == Left(s) - 1
  {
    VerifyGoldKeeps(digestOf, s);
    NineStages(digestOf, s);
    SameLeft(s, m);
  }

  lemma VerifyHelps(digestOf: H.Attributes -> Digest, s: State, m: State)
    requires Sound(digestOf, s) && s.run.Staging? && s.run.done == |StagesFor(s.run.mode)| && m == s.(run := Verified(s.run.batch))
    ensures Helps(digestOf, s.landed, s, m)
  {
    VerifyAdvances(digestOf, s, m);
  }

  lemma OneLess(s: State, m: State, b: P.Batch)
    requires b in Listing(s.landed) && b.id !in s.processed && m.landed == s.landed && m.processed == s.processed[b.id := P.MarkOf(b)]
    ensures |Unprocessed(s)| == |Unprocessed(m)| + 1
  {
    ListingOf(s.landed);
    assert Unprocessed(s) == Unprocessed(m) + {b.id} && b.id !in Unprocessed(m);
  }

  lemma ReplaceAdvances(digestOf: H.Attributes -> Digest, s: State, m: State)
    requires Inv(digestOf, s) && s.run.Verified?
    requires m == s.(processed := s.processed[s.run.batch.id := P.MarkOf(s.run.batch)], run := Replaced(s.run.batch))
    ensures Inv(digestOf, m) && Left(m) == Left(s) - 1 && AfterReplace(s, true) == m
  {
    ReplaceKeeps(digestOf, s, true);
    OneLess(s, m, s.run.batch);
  }

  lemma ReplaceHelps(digestOf: H.Attributes -> Digest, s: State)
    requires Sound(digestOf, s) && s.run.Verified?
    ensures Helps(digestOf, s.landed, s, AfterReplace(s, true))
  {
    var m := s.(processed := s.processed[s.run.batch.id := P.MarkOf(s.run.batch)], run := Replaced(s.run.batch));
    ReplaceAdvances(digestOf, s, m);
  }

  lemma UnlinkHelps(digestOf: H.Attributes -> Digest, s: State, m: State)
    requires Sound(digestOf, s) && s.run.Replaced? && m == s.(intent := None, run := Idle)
    ensures Helps(digestOf, s.landed, s, m)
  {
    UnlinkKeeps(digestOf, s);
    SameLeft(s, m);
  }

  /** Every undisturbed step comes one step closer, except that a runner with nothing left plans
      nothing. */
  lemma UndisturbedHelps(digestOf: H.Attributes -> Digest, s: State, m: State, step: Step)
    requires OnTrack(digestOf, s.landed, s) && Undisturbed(step) && Next(digestOf, s, m, step)
    ensures if s.run.Idle? && Unprocessed(s) == {} then m == s else Helps(digestOf, s.landed, s, m)
  {
    match step
    case Plan =>
      if Unprocessed(s) == {} {
        PlanRests(s);
      } else {
        PlanHelps(digestOf, s, m);
      }
    case Begin => BeginHelps(digestOf, s, m);
    case Resolve => ResolveHelps(digestOf, s, m);
    case RunStage(bronze, _) =>
      var l :| l in s.landed && l.batch == s.run.batch && multiset(bronze) == multiset(l.customers);
      StageHelps(digestOf, s, m, l, bronze);
    case VerifyGold(_) => VerifyHelps(digestOf, s, m);
    case Replace(_) => ReplaceHelps(digestOf, s);
    case Unlink => UnlinkHelps(digestOf, s, m);
    case _ =>
  }

  /** A runner on its track can always take an undisturbed step. */
  lemma SomeStep(digestOf: H.Attributes -> Digest, s: State)
    requires Sound(digestOf, s)
    ensures exists m :: Moves(digestOf, s, m)
  {
    match s.run
    case Idle => StepMoves(digestOf, s, AfterPlan(s), Plan);
    case Planned(_) => StepMoves(digestOf, s, AfterBegin(s), Begin);
    case Begun(_) => StepMoves(digestOf, s, AfterResolve(s), Resolve);
    case Staging(b, mode, done) =>
      if done < |StagesFor(mode)| {
        SomeStage(digestOf, s);
      } else {
        StepMoves(digestOf, s, s.(run := Verified(b)), VerifyGold(true));
      }
    case Verified(_) => StepMoves(digestOf, s, AfterReplace(s, true), Replace(true));
    case Replaced(_) => StepMoves(digestOf, s, s.(intent := None, run := Idle), Unlink);
  }

  lemma StepMoves(digestOf: H.Attributes -> Digest, s: State, m: State, step: Step)
    requires Undisturbed(step) && Next(digestOf, s, m, step)
    ensures Moves(digestOf, s, m)
  {
  }

  lemma SomeStage(digestOf: H.Attributes -> Digest, s: State)
    requires RunOk(s) && s.run.Staging? && s.run.done < |StagesFor(s.run.mode)|
    ensures exists m :: Moves(digestOf, s, m)
  {
    ListingOf(s.landed);
    var l :| l in s.landed && l.batch == s.run.batch;
    StepMoves(digestOf, s, AfterStage(digestOf, s, l.customers, false), RunStage(l.customers, false));
  }

  predicate IsActive(r: Run) {
    r.Planned? || r.Begun? || r.Staging? || r.Verified?
  }

  lemma ActiveIsUnprocessed(s: State)
    requires IsActive(s.run) && s.run.batch in Listing(s.landed) && s.run.batch.id !in s.processed
    ensures |Unprocessed(s)| >= 1
  {
    ListingOf(s.landed);
    var l :| l in s.landed && l.batch == s.run.batch;
    assert l.batch.id in Unprocessed(s);
  }

  lemma ActiveHasBatch(digestOf: H.Attributes -> Digest, landed: seq<Landing>, s: State)
    requires OnTrack(digestOf, landed, s) && IsActive(s.run)
    ensures s.run.batch in Listing(s.landed) && s.run.batch.id !in s.processed
    ensures s.run.Staging? ==> s.run.done <= 9
  {
  }

  /** Only a state with everything checkpointed and nothing running has no steps left. */
  lemma LeftMeans(digestOf: H.Attributes -> Digest, landed: seq<Landing>, s: State)
    requires OnTrack(digestOf, landed, s)
    ensures Left(s) >= 0 && (Left(s) == 0 <==> s.run.Idle? && Unprocessed(s) == {})
  {
    if IsActive(s.run) {
      ActiveHasBatch(digestOf, landed, s);
      ActiveIsUnprocessed(s);
    }
  }

  ghost function TrackOf(digestOf: H.Attributes -> Digest, landed: seq<Landing>): State -> bool {
    (s: State) => OnTrack(digestOf, landed, s)
  }

  ghost function Remaining(): State -> int {
    (s: State) => Left(s)
  }

  lemma MoveApproaches(digestOf: H.Attributes -> Digest, landed: seq<Landing>, x: State, m: State)
    requires TrackOf(digestOf, landed)(x) && RunnerOf(digestOf)(x, m)
    ensures Approaches(TrackOf(digestOf, landed), Remaining(), x, m)
  {
    LeftMeans(digestOf, landed, x);
    var step: Step :| Undisturbed(step) && Next(digestOf, x, m, step);
    UndisturbedHelps(digestOf, x, m, step);
  }

  lemma Drains(digestOf: H.Attributes -> Digest, landed: seq<Landing>, s: State, t: State, n: nat)
    requires TrackOf(digestOf, landed)(s) && Remaining()(s) <= n && Leads(RunnerOf(digestOf), s, t, n)
    ensures TrackOf(digestOf, landed)(t) && Remaining()(t) == 0
  {
    forall x | TrackOf(digestOf, landed)(x) ensures 0 <= Remaining()(x) {
      LeftMeans(digestOf, landed, x);
    }
    forall x, m | TrackOf(digestOf, landed)(x) && RunnerOf(digestOf)(x, m)
      ensures Approaches(TrackOf(digestOf, landed), Remaining(), x, m)
    {
      MoveApproaches(digestOf, landed, x, m);
    }
    AllArrive(RunnerOf(digestOf), TrackOf(digestOf, landed), Remaining(), s, t, n);
  }

  lemma StoppedIsOnTrack(digestOf: H.Attributes -> Digest, s: State)
    requires Sound(digestOf, s)
    ensures TrackOf(digestOf, s.landed)(s.(run := Idle)) && Remaining()(s.(run := Idle)) == 15 * |Unprocessed(s)|
  {
    StopKeeps(digestOf, s);
    SameLeft(s, s.(run := Idle));
  }

  /** Recovery: whatever happened before, if the runner dies now and is then left undisturbed, every
      continuation of at least fifteen steps for each unprocessed batch has checkpointed everything
      that has landed, and the tables are those of all landed batches. */
  lemma AlwaysRecovers(digestOf: H.Attributes -> Digest, states: seq<State>, steps: seq<Step>, t: State, n: nat)
    requires Behaviour(digestOf, states, steps) && Usable(states[|steps|].landed)
    requires Leads(RunnerOf(digestOf), states[|steps|].(run := Idle), t, n) && n >= 15 * |Unprocessed(states[|steps|])|
    ensures Next(digestOf, states[|steps|], states[|steps|].(run := Idle), Crash)
    ensures t.landed == states[|steps|].landed && forall l :: l in t.landed ==> l.batch.id in t.processed
    ensures Published(digestOf, t, t.processed.Keys)
  {
    var s := states[|steps|];
    Reachable(digestOf, states, steps, |steps|);
    StoppedIsOnTrack(digestOf, s);
    Drains(digestOf, s.landed, s.(run := Idle), t, n);
    AllProcessed(digestOf, s.landed, t);
  }

  /** Such continuations exist, of every length: an undisturbed runner is never stuck. */
  lemma UndisturbedGoesOn(digestOf: H.Attributes -> Digest, states: seq<State>, steps: seq<Step>, n: nat) returns (t: State)
    requires Behaviour(digestOf, states, steps) && Usable(states[|steps|].landed)
    ensures Leads(RunnerOf(digestOf), states[|steps|].(run := Idle), t, n)
  {
    var s := states[|steps|];
    Reachable(digestOf, states, steps, |steps|);
    StoppedIsOnTrack(digestOf, s);
    forall x | TrackOf(digestOf, s.landed)(x) ensures CanMove(RunnerOf(digestOf), x) {
      SomeStep(digestOf, x);
      var m :| Moves(digestOf, x, m);
      assert RunnerOf(digestOf)(x, m);
    }
    forall x, m | TrackOf(digestOf, s.landed)(x) && RunnerOf(digestOf)(x, m) ensures TrackOf(digestOf, s.landed)(m) {
      MoveApproaches(digestOf, s.landed, x, m);
    }
    t := NeverStuck(RunnerOf(digestOf), TrackOf(digestOf, s.landed), s.(run := Idle), n);
  }

  lemma AllProcessed(digestOf: H.Attributes -> Digest, landed: seq<Landing>, t: State)
    requires TrackOf(digestOf, landed)(t) && Remaining()(t) == 0
    ensures t.landed == landed && (forall l :: l in t.landed ==> l.batch.id in t.processed) && Published(digestOf, t, t.processed.Keys)
  {
    LeftMeans(digestOf, landed, t);
    ListingOf(t.landed);
    forall l | l in t.landed ensures l.batch.id in t.processed || l.batch.id in Unprocessed(t) {
    }
    assert forall b :: !Holding(t, b);
  }
}
