/** The commerce runner: one locked run from planning to checkpoint. */
module BatchRunner {
  import opened Types
  import opened BatchPlanner
  import BatchProtocol

  type Stage = BatchProtocol.Stage

  datatype Event =
    | Selected(batch: Batch)
    | Reserved(id: BatchId)
    | StageCompleted(stage: Stage, id: BatchId, mode: Option<Mode>)
    | GoldVerified(id: BatchId)
    | BudgetLeft(remaining: Option<int>)
    | CheckpointReplaced(id: BatchId)

  /** What the runner cannot decide: whether a stage and the gold check succeed, what each budget
      check in turn finds left (None without a budget), and which batches land during a stage. */
  datatype World = World(stageSucceeds: Stage -> bool, goldPasses: bool, remaining: nat -> Option<int>, arrivals: Stage -> seq<Batch>)

  datatype RunnerError = Planning(error: PlannerError) | StageFailed(stage: Stage) | GoldFailed | OutOfBudget
  datatype RunReport = IdleRun | Ready(id: BatchId, completed: seq<Stage>)

  predicate Exhausted(remaining: Option<int>) {
    remaining != None && remaining.value <= 0
  }

  function StageEvents(stages: seq<Stage>, b: Batch, mode: Option<Mode>): (r: seq<Event>)
    ensures |r| == |stages| && forall i :: 0 <= i < |r| ==> r[i] == StageCompleted(stages[i], b.id, mode)
  {
    seq(|stages|, i requires 0 <= i < |stages| => StageCompleted(stages[i], b.id, mode))
  }

  /** The budget check before a stage has time left, and the stage succeeds. */
  predicate StagePasses(world: World, stages: seq<Stage>, i: nat)
    requires i < |stages|
  {
    !Exhausted(world.remaining(1 + i)) && world.stageSucceeds(stages[i])
  }

  /** The only history of events that ends in a checkpoint. */
  function FullRun(b: Batch, mode: Option<Mode>, remaining: Option<int>): seq<Event> {
    [Selected(b), Reserved(b.id)] + StageEvents(BatchProtocol.StagesFor(mode), b, mode) + [GoldVerified(b.id), BudgetLeft(remaining), CheckpointReplaced(b.id)]
  }

  ghost predicate LogsFullRun(before: seq<Event>, after: seq<Event>, b: Batch, mode: Option<Mode>) {
    exists remaining :: !Exhausted(remaining) && after == before + FullRun(b, mode, remaining)
  }

  /** What lands while the stages run. */
  function ArrivalsDuring(world: World, stages: seq<Stage>): seq<Batch> {
    if stages == [] then [] else ArrivalsDuring(world, stages[..|stages| - 1]) + world.arrivals(stages[|stages| - 1])
  }

  ghost predicate FilesKept(listing: seq<Batch>, processed: map<BatchId, Mark>, intent: Option<Intent>) {
    ContentKept(listing, processed) && IntentKept(listing, intent)
  }

  /** The planner gives the runner this batch. */
  ghost predicate Given(listing: seq<Batch>, processed: map<BatchId, Mark>, intent: Option<Intent>, b: Batch) {
    FilesKept(listing, processed, intent) && b in listing && MayRun(listing, processed, intent, b)
  }

  /** After n stages time is left before and after the checkpoint is announced, and directly before it
      is replaced. */
  predicate TimeAfter(world: World, n: nat) {
    !Exhausted(world.remaining(1 + n)) && !Exhausted(world.remaining(2 + n)) && !Exhausted(world.remaining(3 + n))
  }

  /** Every stage finds time left and succeeds, the gold check passes, time is left for the checkpoint,
      and commit() still accepts the reserved batch among what has landed since. */
  predicate Completes(world: World, listing: seq<Batch>, processed: map<BatchId, Mark>, b: Batch, stages: seq<Stage>) {
    && (forall i | 0 <= i < |stages| :: StagePasses(world, stages, i)) && world.goldPasses && TimeAfter(world, |stages|)
    && Decide(listing + ArrivalsDuring(world, stages), processed, Some(IntentOf(b)), b.id, Some(b.manifest)).Success?
  }

  /** What a run needs to end ready. */
  ghost predicate EndsReady(world: World, listing: seq<Batch>, processed: map<BatchId, Mark>, intent: Option<Intent>, b: Batch) {
    && Given(listing, processed, intent, b) && !Exhausted(world.remaining(0))
    && Completes(world, listing, processed, b, BatchProtocol.StagesFor(OptionsFor(b, processed)))
  }

  class CommerceRunner {
    const planner: CommerceBatchPlanner
    var log: seq<Event>

    constructor (planner: CommerceBatchPlanner)
      ensures this.planner == planner && log == []
    {
      this.planner := planner;
      log := [];
    }

    /** Plan, reserve and resolve the mode. */
    method Prepare(remaining: Option<int>) returns (result: Result<Option<(Batch, Option<Mode>)>, RunnerError>)
      requires DistinctIds(planner.listing)
      modifies this`log, planner`intent
      ensures old(log) <= log
      ensures result.Success? <==> Prepares(planner.listing, planner.processed, old(planner.intent), remaining)
      ensures result.Failure? ==> result.error.Planning? || (result.error == OutOfBudget && Exhausted(remaining))
      ensures result.Success? ==> (result.value == None <==> forall b :: b in planner.listing ==> b.id in planner.processed)
      ensures result.Success? && result.value == None ==> planner.intent == old(planner.intent) && log == old(log)
      ensures result.Success? && result.value != None ==>
        var (b, mode) := result.value.value;
        && Given(planner.listing, planner.processed, old(planner.intent), b) && mode == OptionsFor(b, planner.processed)
        && planner.intent == Some(IntentOf(b)) && b.id !in planner.processed
        && log == old(log) + [Selected(b), Reserved(b.id)]
    {
      var plan := Plan(planner.listing, planner.processed, planner.intent, 1, []);
      PlanGives(planner.listing, planner.processed, planner.intent);
      if plan.Failure? { return Failure(Planning(plan.error)); }
      if Exhausted(remaining) { return Failure(OutOfBudget); }
      if plan.value.batches == [] { return Success(None); }
      var b := plan.value.batches[0];
      log := log + [Selected(b)];
      PlannedIsReserved(planner.listing, planner.processed, planner.intent, b);
      var refused := planner.Begin(b.id, b.manifest);
      if refused != None { return Failure(Planning(refused.value)); }
      log := log + [Reserved(b.id)];
      var options := ExecutionOptions(planner.listing, planner.processed, b.id, b.manifest);
      if options.Failure? { return Failure(Planning(options.error)); }
      OptionsAre(planner.listing, planner.processed, b);
      result := Success(Some((b, options.value)));
    }

    /** Run the stages in order, with a budget check before each. */
    method RunStages(world: World, b: Batch, mode: Option<Mode>, stages: seq<Stage>) returns (result: Result<seq<Stage>, RunnerError>)
      modifies this`log, planner`listing
      ensures old(log) <= log && old(planner.listing) <= planner.listing
      ensures result.Success? <==> forall i :: 0 <= i < |stages| ==> StagePasses(world, stages, i)
      ensures result.Failure? ==> StageRefused(world, stages, result.error)
      ensures result.Success? ==>
        && result.value == stages && log == old(log) + StageEvents(stages, b, mode)
        && planner.listing == old(planner.listing) + ArrivalsDuring(world, stages)
    {
      var completed := [];
      ghost var logged, listed := log, planner.listing;
      StartsStages(world, b, mode, stages, logged, listed);
      for i := 0 to |stages|
        invariant completed == stages[..i] && DoneStages(world, b, mode, stages, i, logged, listed, log, planner.listing)
      {
        StageDone(world, b, mode, stages, i, logged, listed, log, planner.listing);
        if Exhausted(world.remaining(1 + i)) { return Failure(OutOfBudget); }
        planner.listing := planner.listing + world.arrivals(stages[i]);
        if !world.stageSucceeds(stages[i]) { return Failure(StageFailed(stages[i])); }
        log := log + [StageCompleted(stages[i], b.id, mode)];
        completed := completed + [stages[i]];
      }
      assert stages[..|stages|] == stages;
      result := Success(completed);
    }

    /** Commit the reserved batch after its gold check. */
    method Checkpoint(b: Batch, remaining: Option<int>) returns (result: Result<bool, RunnerError>)
      requires planner.intent == Some(IntentOf(b)) && b.id !in planner.processed
      modifies this`log, planner`processed, planner`intent
      ensures old(log) <= log
      ensures result.Success? <==>
        Decide(planner.listing, old(planner.processed), old(planner.intent), b.id, Some(b.manifest)).Success? && !Exhausted(remaining)
      ensures result.Failure? ==> result.error.Planning? && planner.processed == old(planner.processed)
      ensures result.Success? ==>
        && planner.processed == old(planner.processed)[b.id := MarkOf(b)] && planner.intent == None
        && log == old(log) + [GoldVerified(b.id), BudgetLeft(remaining), CheckpointReplaced(b.id)] && !Exhausted(remaining)
    {
      log := log + [GoldVerified(b.id)];
      CommitsReserved(planner.listing, planner.processed, b);
      var committed := planner.Commit(b.id, Some(b.manifest), remaining);
      if committed.Failure? { return Failure(Planning(committed.error)); }
      log := log + [BudgetLeft(remaining), CheckpointReplaced(b.id)];
      result := Success(committed.value);
    }

    /** The gold check, the budget checks around it, and the checkpoint. */
    method VerifyAndCheckpoint(world: World, b: Batch, completed: seq<Stage>) returns (result: Result<RunReport, RunnerError>)
      requires planner.intent == Some(IntentOf(b)) && b.id !in planner.processed
      modifies this`log, planner`processed, planner`intent
      ensures old(log) <= log
      ensures result.Success? <==>
        && world.goldPasses && TimeAfter(world, |completed|)
        && Decide(planner.listing, old(planner.processed), old(planner.intent), b.id, Some(b.manifest)).Success?
      ensures result == Failure(GoldFailed) <==> !world.goldPasses
      ensures result.Failure? ==> planner.processed == old(planner.processed)
      ensures result.Success? ==>
        && result.value == Ready(b.id, completed)
        && planner.processed == old(planner.processed)[b.id := MarkOf(b)] && planner.intent == None
        && log == old(log) + [GoldVerified(b.id), BudgetLeft(world.remaining(3 + |completed|)), CheckpointReplaced(b.id)]
    {
      if !world.goldPasses { return Failure(GoldFailed); }
      var checks := 1 + |completed|;
      if Exhausted(world.remaining(checks)) || Exhausted(world.remaining(checks + 1)) { return Failure(OutOfBudget); }
      var checkpoint := Checkpoint(b, world.remaining(checks + 2));
      if checkpoint.Failure? { return Failure(checkpoint.error); }
      result := Success(Ready(b.id, completed));
    }

    /** The run of a batch that is reserved and has its stages. */
    method RunGiven(world: World, b: Batch, mode: Option<Mode>, stages: seq<Stage>) returns (result: Result<RunReport, RunnerError>)
      requires planner.intent == Some(IntentOf(b)) && b.id !in planner.processed
      modifies this`log, planner
      ensures old(log) <= log && old(planner.listing) <= planner.listing
      ensures result.Success? <==> Completes(world, old(planner.listing), old(planner.processed), b, stages)
      ensures result == Failure(GoldFailed) ==> !world.goldPasses
      ensures result.Failure? ==> planner.processed == old(planner.processed)
      ensures result.Success? ==>
        && result.value == Ready(b.id, stages)
        && planner.processed == old(planner.processed)[b.id := MarkOf(b)] && planner.intent == None
        && log == old(log) + StageEvents(stages, b, mode) + [GoldVerified(b.id), BudgetLeft(world.remaining(3 + |stages|)), CheckpointReplaced(b.id)]
    {
      var completed := RunStages(world, b, mode, stages);
      if completed.Failure? { return Failure(completed.error); }
      result := VerifyAndCheckpoint(world, b, completed.value);
    }

    /** One run. It ends ready exactly when the planner gives it a batch, every stage and the gold
        check pass, time is left for the checkpoint and commit() still accepts the batch; then all the
        work was done in order, the log is exactly that run, the checkpoint has gained that batch alone
        and the reservation is gone, whatever landed meanwhile. It is idle exactly when nothing is
        unprocessed. Unless it ends ready the checkpoint is as it was. */
    method RunBatch(world: World) returns (result: Result<RunReport, RunnerError>)
      requires DistinctIds(planner.listing)
      modifies this`log, planner
      ensures old(planner.listing) <= planner.listing && old(log) <= log
      ensures result.Failure? || result.value.IdleRun? ==> planner.processed == old(planner.processed)
      ensures result.Success? && result.value.IdleRun? ==>
        planner.intent == old(planner.intent) && planner.listing == old(planner.listing) && log == old(log)
      ensures result == Success(IdleRun) <==>
        && FilesKept(old(planner.listing), old(planner.processed), old(planner.intent)) && !Exhausted(world.remaining(0))
        && forall b :: b in old(planner.listing) ==> b.id in old(planner.processed)
      ensures result.Success? && result.value.Ready? <==> CanEndReady(world, old(planner.listing), old(planner.processed), old(planner.intent))
      ensures result == Failure(GoldFailed) ==> !world.goldPasses
      ensures result.Success? && result.value.Ready? ==> planner.intent == None && exists b ::
        && Given(old(planner.listing), old(planner.processed), old(planner.intent), b)
        && RanFully(result.value, b, old(log), log, old(planner.processed), planner.processed)
    {
      ghost var listing, processed, intent := planner.listing, planner.processed, planner.intent;
      PreparesExactly(listing, processed, intent, world.remaining(0));
      NeedsPreparation(world, listing, processed, intent);
      var prepared := Prepare(world.remaining(0));
      if prepared.Failure? { return Failure(prepared.error); }
      if prepared.value == None { return Success(IdleRun); }
      var (b, mode) := prepared.value.value;
      EndsReadyIs(world, listing, processed, intent, b, BatchProtocol.StagesFor(mode));
      result := RunGiven(world, b, mode, BatchProtocol.StagesFor(mode));
      if result.Success? {
        RunIsFull(old(log), log, b, mode, world.remaining(3 + |result.value.completed|));
        FullyRan(result.value, b, old(log), log, processed);
      }
    }
  }

  lemma RunIsFull(before: seq<Event>, after: seq<Event>, b: Batch, mode: Option<Mode>, remaining: Option<int>)
    requires !Exhausted(remaining)
    requires after == before + [Selected(b), Reserved(b.id)] + StageEvents(BatchProtocol.StagesFor(mode), b, mode)
      + [GoldVerified(b.id), BudgetLeft(remaining), CheckpointReplaced(b.id)]
    ensures LogsFullRun(before, after, b, mode)
  {
    FourParts(before, [Selected(b), Reserved(b.id)], StageEvents(BatchProtocol.StagesFor(mode), b, mode),
      [GoldVerified(b.id), BudgetLeft(remaining), CheckpointReplaced(b.id)]);
    assert after == before + FullRun(b, mode, remaining);
  }

  lemma FullyRan(report: RunReport, b: Batch, before: seq<Event>, after: seq<Event>, processed: map<BatchId, Mark>)
    requires report == Ready(b.id, BatchProtocol.StagesFor(OptionsFor(b, processed))) && LogsFullRun(before, after, b, OptionsFor(b, processed))
    ensures RanFully(report, b, before, after, processed, processed[b.id := MarkOf(b)])
  {
    BatchProtocol.StagesAreWhole(OptionsFor(b, processed));
  }

  lemma FourParts<T>(a: seq<T>, b: seq<T>, c: seq<T>, d: seq<T>)
    ensures a + b + c + d == a + (b + c + d)
  {
  }

  /** The first i stages have passed, are logged, and what landed meanwhile is listed. */
  ghost predicate DoneStages(world: World, b: Batch, mode: Option<Mode>, stages: seq<Stage>, i: nat,
    logged: seq<Event>, listed: seq<Batch>, log: seq<Event>, listing: seq<Batch>)
  {
    && i <= |stages| && (forall j :: 0 <= j < i ==> StagePasses(world, stages, j))
    && log == logged + StageEvents(stages[..i], b, mode) && listing == listed + ArrivalsDuring(world, stages[..i])
  }

  lemma StartsStages(world: World, b: Batch, mode: Option<Mode>, stages: seq<Stage>, logged: seq<Event>, listed: seq<Batch>)
    ensures DoneStages(world, b, mode, stages, 0, logged, listed, logged, listed)
  {
  }

  /** Stage i refuses the run, or is done too. */
  lemma StageDone(world: World, b: Batch, mode: Option<Mode>, stages: seq<Stage>, i: nat,
    logged: seq<Event>, listed: seq<Batch>, log: seq<Event>, listing: seq<Batch>)
    requires i < |stages| && DoneStages(world, b, mode, stages, i, logged, listed, log, listing)
    ensures logged <= log && listed <= listing
    ensures Exhausted(world.remaining(1 + i)) ==> !StagePasses(world, stages, i) && StageRefused(world, stages, OutOfBudget)
    ensures !world.stageSucceeds(stages[i]) ==> !StagePasses(world, stages, i) && StageRefused(world, stages, StageFailed(stages[i]))
    ensures !Exhausted(world.remaining(1 + i)) && world.stageSucceeds(stages[i]) ==>
      DoneStages(world, b, mode, stages, i + 1, logged, listed, log + [StageCompleted(stages[i], b.id, mode)], listing + world.arrivals(stages[i]))
  {
    ArrivalsSoFar(world, stages, i);
    EventsSoFar(stages, b, mode, i);
    RefusedAt(world, stages, i);
  }

  lemma EventsSoFar(stages: seq<Stage>, b: Batch, mode: Option<Mode>, i: nat)
    requires i < |stages|
    ensures StageEvents(stages[..i + 1], b, mode) == StageEvents(stages[..i], b, mode) + [StageCompleted(stages[i], b.id, mode)]
  {
  }

  lemma ArrivalsSoFar(world: World, stages: seq<Stage>, i: nat)
    requires i < |stages|
    ensures ArrivalsDuring(world, stages[..i + 1]) == ArrivalsDuring(world, stages[..i]) + world.arrivals(stages[i])
  {
    assert stages[..i + 1][..i] == stages[..i];
  }

  /** The batch that plan() puts first. */
  function FirstPlanned(listing: seq<Batch>, processed: map<BatchId, Mark>, intent: Option<Intent>): Option<Batch> {
    var plan := Plan(listing, processed, intent, 1, []);
    if plan.Failure? || plan.value.batches == [] then None else Some(plan.value.batches[0])
  }

  lemma RefusedAt(world: World, stages: seq<Stage>, i: nat)
    requires i < |stages|
    ensures StagePasses(world, stages, i) <==> !Exhausted(world.remaining(1 + i)) && world.stageSucceeds(stages[i])
    ensures Exhausted(world.remaining(1 + i)) ==> StageRefused(world, stages, OutOfBudget)
    ensures !world.stageSucceeds(stages[i]) ==> StageRefused(world, stages, StageFailed(stages[i]))
  {
    assert StagePasses(world, stages, i) <==> !Exhausted(world.remaining(1 + i)) && world.stageSucceeds(stages[i]);
  }

  ghost predicate StageRefused(world: World, stages: seq<Stage>, error: RunnerError) {
    match error
    case OutOfBudget => exists i :: 0 <= i < |stages| && !StagePasses(world, stages, i) && Exhausted(world.remaining(1 + i))
    case StageFailed(stage) => stage in stages && !world.stageSucceeds(stage)
    case _ => false
  }

  lemma FilesKeptAgree(listing: seq<Batch>, processed: map<BatchId, Mark>, intent: Option<Intent>)
    requires DistinctIds(listing)
    ensures FilesKept(listing, processed, intent) <==> FilesAgree(listing, processed, intent)
  {
  }

  lemma SomethingLeft(listing: seq<Batch>, processed: map<BatchId, Mark>, batches: seq<Batch>)
    requires forall b :: b in batches ==> b in listing && b.id !in processed
    ensures batches != [] ==> exists b :: b in listing && b.id !in processed
  {
    if batches != [] {
      assert batches[0] in batches;
    }
  }

  /** plan() succeeds exactly on files that agree, and puts first the batch that may run. */
  lemma PlanGives(listing: seq<Batch>, processed: map<BatchId, Mark>, intent: Option<Intent>)
    requires DistinctIds(listing)
    ensures var plan := Plan(listing, processed, intent, 1, []);
      && (plan.Success? <==> FilesKept(listing, processed, intent))
      && (plan.Success? ==> (plan.value.batches == [] <==> forall b :: b in listing ==> b.id in processed))
      && (plan.Success? && plan.value.batches != [] ==> Given(listing, processed, intent, plan.value.batches[0]))
  {
    FilesKeptAgree(listing, processed, intent);
    PlanExactly(listing, processed, intent, 1);
    if FilesKept(listing, processed, intent) {
      PlannedIsListed(listing, processed, intent, 1);
      var batches := Plan(listing, processed, intent, 1, []).value.batches;
      if b :| b in listing && b.id !in processed {
        var next := NextExists(listing, processed, intent, b);
        PlanOfOne(listing, processed, intent);
        NextExactly(listing, processed, intent, next);
      }
      SomethingLeft(listing, processed, batches);
    }
  }

  /** The planner gives a batch, accepts it and resolves its mode, or has nothing to give. */
  ghost predicate Prepares(listing: seq<Batch>, processed: map<BatchId, Mark>, intent: Option<Intent>, remaining: Option<int>) {
    var plan := Plan(listing, processed, intent, 1, []);
    && plan.Success? && !Exhausted(remaining)
    && (plan.value.batches == []
      || (var b := plan.value.batches[0];
          Reserve(listing, processed, intent, b.id, b.manifest).Success? && ExecutionOptions(listing, processed, b.id, b.manifest).Success?))
  }

  /** Whatever the planner gives it also accepts, so it is enough that the files agree. */
  lemma PreparesExactly(listing: seq<Batch>, processed: map<BatchId, Mark>, intent: Option<Intent>, remaining: Option<int>)
    requires DistinctIds(listing)
    ensures Prepares(listing, processed, intent, remaining) <==> FilesKept(listing, processed, intent) && !Exhausted(remaining)
  {
    PlanGives(listing, processed, intent);
    var plan := Plan(listing, processed, intent, 1, []);
    if plan.Success? && plan.value.batches != [] {
      GivenIsAccepted(listing, processed, intent, plan.value.batches[0]);
    }
  }

  lemma OptionsAre(listing: seq<Batch>, processed: map<BatchId, Mark>, b: Batch)
    requires DistinctIds(listing) && b in listing && ExecutionOptions(listing, processed, b.id, b.manifest).Success?
    ensures ExecutionOptions(listing, processed, b.id, b.manifest).value == OptionsFor(b, processed)
  {
    FindsListed(listing, b);
  }

  lemma GivenIsAccepted(listing: seq<Batch>, processed: map<BatchId, Mark>, intent: Option<Intent>, b: Batch)
    requires DistinctIds(listing) && Given(listing, processed, intent, b)
    ensures Reserve(listing, processed, intent, b.id, b.manifest).Success?
    ensures ExecutionOptions(listing, processed, b.id, b.manifest) == Success(OptionsFor(b, processed))
  {
    FilesKeptAgree(listing, processed, intent);
    ReserveExactly(listing, processed, intent, b.id, b.manifest);
    assert Committed(listing, b, b.id, Some(b.manifest));
    OptionsPin(listing, processed, intent, b);
  }

  ghost predicate CanEndReady(world: World, listing: seq<Batch>, processed: map<BatchId, Mark>, intent: Option<Intent>) {
    exists b :: EndsReady(world, listing, processed, intent, b)
  }

  lemma EndsReadyIs(world: World, listing: seq<Batch>, processed: map<BatchId, Mark>, intent: Option<Intent>, b: Batch, stages: seq<Stage>)
    requires DistinctIds(listing) && Given(listing, processed, intent, b) && stages == BatchProtocol.StagesFor(OptionsFor(b, processed))
    requires !Exhausted(world.remaining(0))
    ensures CanEndReady(world, listing, processed, intent) <==> Completes(world, listing, processed, b, stages)
  {
    OnlyOneGiven(listing, processed, intent, b);
    if Completes(world, listing, processed, b, stages) {
      assert EndsReady(world, listing, processed, intent, b);
    }
  }

  lemma NeedsPreparation(world: World, listing: seq<Batch>, processed: map<BatchId, Mark>, intent: Option<Intent>)
    ensures CanEndReady(world, listing, processed, intent) ==>
      FilesKept(listing, processed, intent) && !Exhausted(world.remaining(0)) && exists b :: b in listing && b.id !in processed
  {
  }

  lemma OnlyOneGiven(listing: seq<Batch>, processed: map<BatchId, Mark>, intent: Option<Intent>, b: Batch)
    requires DistinctIds(listing) && Given(listing, processed, intent, b)
    ensures forall c :: Given(listing, processed, intent, c) ==> c == b
  {
    OnlyOne(listing, b);
  }

  /** The report, the log and the checkpoint of a run that ended ready. */
  ghost predicate RanFully(report: RunReport, b: Batch, before: seq<Event>, after: seq<Event>, processed: map<BatchId, Mark>, now: map<BatchId, Mark>) {
    && report.Ready? && report.id == b.id && BatchProtocol.WholePipeline(report.completed, b.fullSnapshot)
    && LogsFullRun(before, after, b, OptionsFor(b, processed))
    && now == processed[b.id := Mark(b.at, b.manifest)]
  }

  /** Reserving the batch that plan() put first makes the intent file name it, or already finds it
      there. */
  lemma PlannedIsReserved(listing: seq<Batch>, processed: map<BatchId, Mark>, intent: Option<Intent>, b: Batch)
    requires DistinctIds(listing) && FirstPlanned(listing, processed, intent) == Some(b)
    ensures b in listing && b.id !in processed
    ensures Reserve(listing, processed, intent, b.id, b.manifest).Success? ==>
      Reserve(listing, processed, intent, b.id, b.manifest).value == Some(IntentOf(b))
  {
    PlannedIsUnprocessed(listing, processed, intent, b);
    DiscoverSorts(listing);
    FindsListed(listing, b);
    if Reserve(listing, processed, intent, b.id, b.manifest).Success? {
      ReservesWhatItFinds(listing, processed, intent, b);
    }
  }

  lemma PlannedIsUnprocessed(listing: seq<Batch>, processed: map<BatchId, Mark>, intent: Option<Intent>, b: Batch)
    requires FirstPlanned(listing, processed, intent) == Some(b)
    ensures b in Discover(listing) && b.id !in processed
  {
  }

  lemma ReservesWhatItFinds(listing: seq<Batch>, processed: map<BatchId, Mark>, intent: Option<Intent>, b: Batch)
    requires Find(Discover(listing), b.id) == Some(b) && Reserve(listing, processed, intent, b.id, b.manifest).Success?
    ensures Reserve(listing, processed, intent, b.id, b.manifest).value == Some(IntentOf(b))
  {
  }

  /** With the intent naming an unprocessed batch, commit() either fails or advances that batch,
      whatever the listing has become. */
  lemma CommitsReserved(listing: seq<Batch>, processed: map<BatchId, Mark>, b: Batch)
    requires b.id !in processed
    ensures var d := Decide(listing, processed, Some(IntentOf(b)), b.id, Some(b.manifest));
      d.Success? ==> d.value.Advance? && d.value.reserved && MarkOf(d.value.batch) == MarkOf(b)
  {
  }
}
