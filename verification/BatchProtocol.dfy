/** The whole batch protocol as a state machine: landings arrive at any moment, one runner plans,
    reserves, runs the stages and checkpoints, and it may die between any two steps. */
module BatchProtocol {
  import opened Types
  import opened Frames
  import opened MergeStatement
  import SC = SilverCustomers
  import H = HistorySpec
  import J = HistoryJob
  import T = HistoryTheorems
  import P = BatchPlanner
  import M = CurrentMart

  /** A committed landing: its manifest, and the customer rows that its bronze batch has. */
  datatype Landing = Landing(batch: P.Batch, customers: seq<SC.Customer>)

  datatype Stage =
    | BronzeInputSync | Bronze | PaymentSilver | OrderSilver | ProductSilver
    | CustomerSilver | CustomerScd2 | DailyGold | CurrentGold

  const COMMERCE_STAGES: seq<Stage> :=
    [BronzeInputSync, Bronze, PaymentSilver, OrderSilver, ProductSilver, CustomerSilver, CustomerScd2, DailyGold]

  const AFTER_CUSTOMER_SILVER: nat := 6
  const AFTER_CUSTOMER_SCD2: nat := 7
  const AFTER_CURRENT_GOLD: nat := 9

  function StagesFor(mode: Option<P.Mode>): seq<Stage> {
    if mode == None then COMMERCE_STAGES else COMMERCE_STAGES + [CurrentGold]
  }

  /** Every occurrence of a comes before every occurrence of b. */
  predicate Before(stages: seq<Stage>, a: Stage, b: Stage) {
    forall i, j | 0 <= i < |stages| && 0 <= j < |stages| :: stages[i] == a && stages[j] == b ==> i < j
  }

  /** Each stage once, the mart only if wanted. */
  ghost predicate EachStageOnce(stages: seq<Stage>, withMart: bool) {
    && NoDuplicates(stages) && (forall stage: Stage :: stage != CurrentGold ==> stage in stages)
    && (CurrentGold in stages <==> withMart)
  }

  /** Input, bronze, the silver tables, the customer history, daily gold, the mart: every stage comes
      after those whose tables it reads. */
  ghost predicate InPipelineOrder(stages: seq<Stage>) {
    && Before(stages, BronzeInputSync, Bronze)
    && (forall silver :: silver in {PaymentSilver, OrderSilver, ProductSilver, CustomerSilver} ==> Before(stages, Bronze, silver))
    && Before(stages, PaymentSilver, OrderSilver) && Before(stages, OrderSilver, ProductSilver) && Before(stages, ProductSilver, CustomerSilver)
    && Before(stages, CustomerSilver, CustomerScd2) && Before(stages, CustomerScd2, DailyGold)
    && Before(stages, PaymentSilver, DailyGold) && Before(stages, OrderSilver, DailyGold)
    && Before(stages, DailyGold, CurrentGold)
  }

  /** All the work of a batch, in order. */
  ghost predicate WholePipeline(stages: seq<Stage>, withMart: bool) {
    EachStageOnce(stages, withMart) && InPipelineOrder(stages)
  }

  ghost function PlaceOf(stage: Stage): nat {
    match stage
    case BronzeInputSync => 0
    case Bronze => 1
    case PaymentSilver => 2
    case OrderSilver => 3
    case ProductSilver => 4
    case CustomerSilver => 5
    case CustomerScd2 => 6
    case DailyGold => 7
    case CurrentGold => 8
  }

  lemma StagesInPlace(mode: Option<P.Mode>)
    ensures |StagesFor(mode)| == (if mode == None then 8 else 9)
    ensures forall i :: 0 <= i < |StagesFor(mode)| ==> PlaceOf(StagesFor(mode)[i]) == i
  {
  }

  lemma OnePlaceEach(a: Stage, b: Stage)
    requires PlaceOf(a) == PlaceOf(b)
    ensures a == b && PlaceOf(a) < 9 && (PlaceOf(a) == 8 <==> a == CurrentGold)
  {
  }

  lemma InPlace(stages: seq<Stage>, stage: Stage)
    requires forall i :: 0 <= i < |stages| ==> PlaceOf(stages[i]) == i
    ensures stage in stages <==> PlaceOf(stage) < |stages|
  {
    if PlaceOf(stage) < |stages| {
      OnePlaceEach(stage, stages[PlaceOf(stage)]);
    }
  }

  lemma InPlaceBefore(stages: seq<Stage>)
    requires forall i :: 0 <= i < |stages| ==> PlaceOf(stages[i]) == i
    ensures NoDuplicates(stages) && forall a, b :: PlaceOf(a) < PlaceOf(b) ==> Before(stages, a, b)
  {
  }

  lemma StagesAreWhole(mode: Option<P.Mode>)
    ensures WholePipeline(StagesFor(mode), mode != None)
  {
    var stages := StagesFor(mode);
    StagesInPlace(mode);
    InPlaceBefore(stages);
    forall stage: Stage ensures stage in stages <==> stage != CurrentGold || mode != None {
      InPlace(stages, stage);
      OnePlaceEach(stage, stage);
    }
  }

  /** The runner's memory, lost in a crash. */
  datatype Run =
    | Idle
    | Planned(batch: P.Batch)
    | Begun(batch: P.Batch)
    | Staging(batch: P.Batch, mode: Option<P.Mode>, done: nat)
    | Verified(batch: P.Batch)
    | Replaced(batch: P.Batch)

  datatype State = State(
    landed: seq<Landing>,
    processed: map<BatchId, P.Mark>, intent: Option<P.Intent>,
    silver: seq<J.SilverRow>, history: seq<H.Version>, mart: Option<M.SnapshotIdentity>,
    run: Run)

  datatype Step =
    | Land(landing: Landing)
    | Plan
    | Begin
    | Resolve
    | RunStage(bronze: seq<SC.Customer>, lost: bool)
    | StageFails
    | VerifyGold(passed: bool)
    | Replace(inTime: bool)
    | Unlink
    | Crash

  function Listing(landed: seq<Landing>): seq<P.Batch> {
    Map(landed, (l: Landing) => l.batch)
  }

  function IdentityOf(b: P.Batch): M.SnapshotIdentity {
    M.SnapshotIdentity(b.id, b.at, b.manifest)
  }

  // ---------------------------------------------------------------- the stages

  /** The tables after a stage, and whether it succeeded. */
  datatype Effect = Effect(silver: seq<J.SilverRow>, history: seq<H.Version>, mart: Option<M.SnapshotIdentity>, ok: bool)

  function CustomerSilverEffect(s: State, batch: P.Batch, bronze: seq<SC.Customer>): Effect {
    if bronze == [] then Effect(s.silver, s.history, s.mart, false)
    else
      var valid := SC.ValidRows(bronze);
      var silver := InsertMissing(s.silver, valid, SC.SilverKey);
      Effect(silver, s.history, s.mart, |Part(silver, SC.SilverIn(batch.id))| == |valid|)
  }

  function CustomerScd2Effect(digestOf: H.Attributes -> Digest, s: State, batch: P.Batch, mode: Option<P.Mode>): Effect {
    if mode == Some(P.Rebuild) then
      var r := J.RebuildHistory(s.history, J.WithHistoryColumns(digestOf, s.silver));
      Effect(s.silver, r.rows, s.mart, r.result.Success?)
    else
      var r := J.ApplyHistory(s.history, J.WithHistoryColumns(digestOf, Part(s.silver, SC.SilverIn(batch.id))));
      Effect(s.silver, r.rows, s.mart, r.result.Success?)
  }

  function CurrentGoldEffect(s: State, batch: P.Batch): Effect {
    var action := M.SnapshotAction(s.mart, IdentityOf(batch));
    if action.Failure? then Effect(s.silver, s.history, s.mart, false)
    else
      Effect(s.silver, s.history, if action.value == M.Create || action.value == M.Replace then Some(IdentityOf(batch)) else s.mart, true)
  }

  /** Stages that write none of the three tables are successful or not by StageFails alone. */
  function StageEffect(digestOf: H.Attributes -> Digest, s: State, stage: Stage, batch: P.Batch, mode: Option<P.Mode>, bronze: seq<SC.Customer>): Effect {
    match stage
    case CustomerSilver => CustomerSilverEffect(s, batch, bronze)
    case CustomerScd2 => CustomerScd2Effect(digestOf, s, batch, mode)
    case CurrentGold => CurrentGoldEffect(s, batch)
    case _ => Effect(s.silver, s.history, s.mart, true)
  }

  // ---------------------------------------------------------------- steps

  function AfterPlan(s: State): State {
    var plan := P.Plan(Listing(s.landed), s.processed, s.intent, 1, []);
    if plan.Failure? || plan.value.batches == [] then s else s.(run := Planned(plan.value.batches[0]))
  }

  function AfterBegin(s: State): State
    requires s.run.Planned?
  {
    var b := s.run.batch;
    var reserved := P.Reserve(Listing(s.landed), s.processed, s.intent, b.id, b.manifest);
    if reserved.Failure? then s.(run := Idle) else s.(intent := reserved.value, run := Begun(b))
  }

  function AfterResolve(s: State): State
    requires s.run.Begun?
  {
    var b := s.run.batch;
    var options := P.ExecutionOptions(Listing(s.landed), s.processed, b.id, b.manifest);
    if options.Failure? then s.(run := Idle) else s.(run := Staging(b, options.value, 0))
  }

  function AfterStage(digestOf: H.Attributes -> Digest, s: State, bronze: seq<SC.Customer>, lost: bool): State
    requires s.run.Staging? && s.run.done < |StagesFor(s.run.mode)|
  {
    var r := s.run;
    var e := StageEffect(digestOf, s, StagesFor(r.mode)[r.done], r.batch, r.mode, bronze);
    s.(silver := e.silver, history := e.history, mart := e.mart,
       run := if e.ok && !lost then Staging(r.batch, r.mode, r.done + 1) else Idle)
  }

  function AfterReplace(s: State, inTime: bool): State
    requires s.run.Verified?
  {
    var b := s.run.batch;
    var d := P.Decide(Listing(s.landed), s.processed, s.intent, b.id, Some(b.manifest));
    if d.Failure? || d.value == P.AlreadyProcessed || !inTime then s.(run := Idle)
    else s.(processed := s.processed[b.id := P.MarkOf(d.value.batch)], run := if d.value.reserved then Replaced(b) else Idle)
  }

  ghost predicate Next(digestOf: H.Attributes -> Digest, s: State, s': State, step: Step) {
    match step
    case Land(l) =>
      && s' == s.(landed := s.landed + [l])
      && (forall k :: k in s.landed ==> k.batch.id != l.batch.id)
      && SC.BronzeBatch(l.customers, l.batch.id, l.batch.at)
    case Plan => s.run.Idle? && s' == AfterPlan(s)
    case Begin => s.run.Planned? && s' == AfterBegin(s)
    case Resolve => s.run.Begun? && s' == AfterResolve(s)
    case RunStage(bronze, lost) =>
      && s.run.Staging? && s.run.done < |StagesFor(s.run.mode)|
      && (exists l :: l in s.landed && l.batch == s.run.batch && multiset(bronze) == multiset(l.customers))
      && s' == AfterStage(digestOf, s, bronze, lost)
    case StageFails => s.run.Staging? && s' == s.(run := Idle)
    case VerifyGold(passed) =>
      && s.run.Staging? && s.run.done == |StagesFor(s.run.mode)|
      && s' == s.(run := if passed then Verified(s.run.batch) else Idle)
    case Replace(inTime) => s.run.Verified? && s' == AfterReplace(s, inTime)
    case Unlink => s.run.Replaced? && s' == s.(intent := None, run := Idle)
    case Crash => s' == s.(run := Idle)
  }

  const INITIAL: State := State([], map[], None, [], [], None, Idle)

  /** A run of the system: any interleaving of steps from the empty lakehouse. */
  ghost predicate Behaviour(digestOf: H.Attributes -> Digest, states: seq<State>, steps: seq<Step>) {
    && |states| == |steps| + 1 && states[0] == INITIAL
    && forall i {:trigger steps[i]} :: 0 <= i < |steps| ==> Next(digestOf, states[i], states[i + 1], steps[i])
  }

  // ---------------------------------------------------------------- what is known

  ghost function ObservationsOf(digestOf: H.Attributes -> Digest, l: Landing): set<H.Observation> {
    J.Rows(J.WithHistoryColumns(digestOf, SC.ValidRows(l.customers)))
  }

  /** The customer observations of the landed batches with the given identifiers. */
  ghost function Known(digestOf: H.Attributes -> Digest, landed: seq<Landing>, ids: set<BatchId>): set<H.Observation> {
    set l, o | l in landed && l.batch.id in ids && o in ObservationsOf(digestOf, l) :: o
  }

  ghost predicate LatestOf(landed: seq<Landing>, ids: set<BatchId>, mart: Option<M.SnapshotIdentity>) {
    if mart == None then forall l :: l in landed ==> l.batch.id !in ids
    else
      && (exists l :: l in landed && l.batch.id in ids && IdentityOf(l.batch) == mart.value)
      && (forall l :: l in landed && l.batch.id in ids ==> l.batch.at <= mart.value.at)
  }

  /** Declared full snapshots with distinct effective times, which convergence is about. */
  ghost predicate DistinctSnapshots(landed: seq<Landing>) {
    && (forall l :: l in landed ==> l.batch.fullSnapshot)
    && (forall k, l :: k in landed && l in landed && k.batch.at == l.batch.at ==> k == l)
  }

  ghost predicate Holding(s: State, b: P.Batch) {
    P.ReservedFor(Listing(s.landed), s.processed, s.intent, b)
  }

  ghost predicate InSilver(s: State, l: Landing) {
    forall r :: r in SC.ValidRows(l.customers) ==> r in s.silver
  }

  /** Both published tables reflect exactly the batches with these identifiers. */
  ghost predicate HistoryOf(digestOf: H.Attributes -> Digest, s: State, ids: set<BatchId>) {
    T.Holds(s.history, Known(digestOf, s.landed, ids))
  }

  // ---------------------------------------------------------------- the invariant

  ghost predicate LandedOk(landed: seq<Landing>) {
    && (forall i, j :: 0 <= i < j < |landed| ==> landed[i].batch.id != landed[j].batch.id)
    && (forall l :: l in landed ==> SC.BronzeBatch(l.customers, l.batch.id, l.batch.at))
  }

  ghost predicate FilesOk(s: State) {
    P.FilesAgree(Listing(s.landed), s.processed, s.intent)
  }

  ghost predicate RunOk(s: State) {
    match s.run
    case Idle => true
    case Planned(b) => b in Listing(s.landed)
    case Begun(b) => Holding(s, b)
    case Staging(b, mode, done) => Holding(s, b) && mode == P.OptionsFor(b, s.processed) && done <= |StagesFor(mode)|
    case Verified(b) => Holding(s, b)
    case Replaced(b) => b in Listing(s.landed) && s.intent == Some(P.IntentOf(b)) && b.id in s.processed
  }

  /** The runner has finished the first n stages of b. */
  predicate Past(s: State, b: P.Batch, n: nat) {
    (s.run.Staging? && s.run.batch == b && s.run.done >= n) || (s.run.Verified? && s.run.batch == b)
  }

  ghost predicate SilverOk(s: State) {
    && DistinctKeys(s.silver, SC.SilverKey)
    && (forall r :: r in s.silver ==> exists l :: l in s.landed && r in SC.ValidRows(l.customers) && (l.batch.id in s.processed || Holding(s, l.batch)))
    && (forall l :: l in s.landed && l.batch.id in s.processed ==> InSilver(s, l))
    && (forall l :: l in s.landed && Holding(s, l.batch) ==> InSilver(s, l) || Part(s.silver, SC.SilverIn(l.batch.id)) == [])
    && (forall l :: l in s.landed && Past(s, l.batch, AFTER_CUSTOMER_SILVER) ==> InSilver(s, l))
  }

  ghost predicate HistoryOk(digestOf: H.Attributes -> Digest, s: State) {
    var done := s.processed.Keys;
    && (HistoryOf(digestOf, s, done) || exists b :: Holding(s, b) && HistoryOf(digestOf, s, done + {b.id}))
    && (forall b :: Past(s, b, AFTER_CUSTOMER_SCD2) ==> HistoryOf(digestOf, s, done + {b.id}))
  }

  ghost predicate MartOk(s: State) {
    var done := s.processed.Keys;
    && (LatestOf(s.landed, done, s.mart) || exists b :: Holding(s, b) && LatestOf(s.landed, done + {b.id}, s.mart))
    && (forall b :: Past(s, b, AFTER_CURRENT_GOLD) ==> LatestOf(s.landed, done + {b.id}, s.mart))
  }

  ghost predicate Inv(digestOf: H.Attributes -> Digest, s: State) {
    && LandedOk(s.landed) && FilesOk(s) && RunOk(s) && SilverOk(s)
    && (DistinctSnapshots(s.landed) ==> HistoryOk(digestOf, s) && MartOk(s))
  }
}
