/** The batch planner: which committed batch runs next, in which mode, and what may be checkpointed. */
module BatchPlanner {
  import opened Types
  import opened Frames

  /** A committed landing as its manifest describes it. */
  datatype Batch = Batch(id: BatchId, at: Instant, manifest: Digest, fullSnapshot: bool)

  /** An entry of the checkpoint file. */
  datatype Mark = Mark(at: Instant, manifest: Digest)

  /** The content of the active-intent file. */
  datatype Intent = Intent(id: BatchId, at: Instant, manifest: Digest)

  datatype Mode = Forward | Rebuild
  datatype PlanMode = Incremental | ReplayRequested
  datatype PlanReport = PlanReport(batches: seq<Batch>, committed: nat, mode: PlanMode, processed: nat)

  datatype PlannerError =
    | BadMaxBatches | TooManyReplays | RepeatedReplay | ReplayNotCommitted
    | ProcessedContentChanged | IntentChanged | ManifestChanged | NotNext
    | NotCommitted | SkipsEarlier | BudgetExhausted

  datatype Decision = AlreadyProcessed | Advance(batch: Batch, reserved: bool)

  // ---------------------------------------------------------------- discovery

  predicate Precedes(a: Batch, b: Batch) {
    a.at < b.at || (a.at == b.at && a.id <= b.id)
  }

  function Insert(b: Batch, ordered: seq<Batch>): seq<Batch> {
    if ordered == [] then [b]
    else if Precedes(b, ordered[0]) then [b] + ordered
    else [ordered[0]] + Insert(b, ordered[1..])
  }

  /** discover(): the listed batches by effective time, then identifier. */
  function Discover(listing: seq<Batch>): seq<Batch> {
    if listing == [] then [] else Insert(listing[0], Discover(listing[1..]))
  }

  function Find(batches: seq<Batch>, id: BatchId): (r: Option<Batch>)
    ensures r == None ==> forall b :: b in batches ==> b.id != id
    ensures r != None ==> r.value in batches && r.value.id == id
  {
    if batches == [] then None
    else if batches[0].id == id then Some(batches[0])
    else Find(batches[1..], id)
  }

  function IntentOf(b: Batch): Intent {
    Intent(b.id, b.at, b.manifest)
  }

  function MarkOf(b: Batch): Mark {
    Mark(b.at, b.manifest)
  }

  // ---------------------------------------------------------------- reading the persisted state

  /** Every checkpointed batch is still committed with the recorded manifest and time. */
  predicate ProcessedContentKept(processed: map<BatchId, Mark>, batches: seq<Batch>) {
    forall id | id in processed ::
      var b := Find(batches, id);
      b != None && MarkOf(b.value) == processed[id]
  }

  /** The reserved batch, unless it was checkpointed already. */
  function ActiveBatch(processed: map<BatchId, Mark>, intent: Option<Intent>, batches: seq<Batch>): Result<Option<Batch>, PlannerError> {
    if intent == None then Success(None)
    else
      var b := Find(batches, intent.value.id);
      if b == None || IntentOf(b.value) != intent.value then Failure(IntentChanged)
      else if b.value.id in processed then Success(None)
      else Success(b)
  }

  function Pending(processed: map<BatchId, Mark>, ordered: seq<Batch>): (r: seq<Batch>)
    ensures forall b :: b in r <==> b in ordered && b.id !in processed
  {
    Filter(ordered, (b: Batch) => b.id !in processed)
  }

  /** The batch that must run next: the reserved one, else the earliest unprocessed one. */
  function NextBatch(processed: map<BatchId, Mark>, active: Option<Batch>, ordered: seq<Batch>): Option<Batch> {
    if active != None then active
    else
      var pending := Pending(processed, ordered);
      if pending == [] then None else Some(pending[0])
  }

  // ---------------------------------------------------------------- decisions

  function AllFound(batches: seq<Batch>, ids: seq<BatchId>): Option<seq<Batch>> {
    if ids == [] then Some([])
    else
      var b, rest := Find(batches, ids[0]), AllFound(batches, ids[1..]);
      if b == None || rest == None then None else Some([b.value] + rest.value)
  }

  predicate Repeats(ids: seq<BatchId>) {
    exists i, j | 0 <= i < j < |ids| :: ids[i] == ids[j]
  }

  /** The reserved batch, if any, goes before the rest of the pending ones. */
  function ActiveFirst(active: Option<Batch>, pending: seq<Batch>): (r: seq<Batch>)
    ensures forall b :: b in r <==> b in pending || active == Some(b)
    ensures active != None ==> r != [] && r[0] == active.value
  {
    if active == None then pending else [active.value] + Filter(pending, (b: Batch) => b != active.value)
  }

  function Plan(listing: seq<Batch>, processed: map<BatchId, Mark>, intent: Option<Intent>, maxBatches: int, replays: seq<BatchId>)
    : Result<PlanReport, PlannerError>
  {
    if maxBatches < 1 then Failure(BadMaxBatches)
    else if |replays| > maxBatches then Failure(TooManyReplays)
    else if Repeats(replays) then Failure(RepeatedReplay)
    else
      var ordered := Discover(listing);
      if !ProcessedContentKept(processed, ordered) then Failure(ProcessedContentChanged)
      else
        var active := ActiveBatch(processed, intent, ordered);
        if active.Failure? then Failure(active.error)
        else if replays != [] then
          var found := AllFound(ordered, replays);
          if found == None then Failure(ReplayNotCommitted)
          else Success(PlanReport(found.value, |ordered|, ReplayRequested, |processed|))
        else
          var pending := Pending(processed, ordered);
          var selected := ActiveFirst(active.value, pending);
          Success(PlanReport(if |selected| > maxBatches then selected[..maxBatches] else selected, |ordered|, Incremental, |processed|))
  }

  /** None leaves the batch out of the current mart and in the job's default mode. */
  function ExecutionOptions(listing: seq<Batch>, processed: map<BatchId, Mark>, id: BatchId, manifest: Digest)
    : Result<Option<Mode>, PlannerError>
  {
    var ordered := Discover(listing);
    if !ProcessedContentKept(processed, ordered) then Failure(ProcessedContentChanged)
    else
      var b := Find(ordered, id);
      if b == None || b.value.manifest != manifest then Failure(ManifestChanged)
      else if !b.value.fullSnapshot then Success(None)
      else Success(Some(if exists p | p in processed :: b.value.at < processed[p].at then Rebuild else Forward))
  }

  /** begin(): the intent file after reserving the selected batch. */
  function Reserve(listing: seq<Batch>, processed: map<BatchId, Mark>, intent: Option<Intent>, id: BatchId, manifest: Digest)
    : Result<Option<Intent>, PlannerError>
  {
    var ordered := Discover(listing);
    if !ProcessedContentKept(processed, ordered) then Failure(ProcessedContentChanged)
    else
      var active := ActiveBatch(processed, intent, ordered);
      if active.Failure? then Failure(active.error)
      else
        var b := Find(ordered, id);
        if b == None || b.value.manifest != manifest then Failure(ManifestChanged)
        else if Pending(processed, ordered) == [] || b != NextBatch(processed, active.value, ordered) then Failure(NotNext)
        else Success(if active.value == None then Some(IntentOf(b.value)) else intent)
  }

  /** What commit() may do. */
  function Decide(listing: seq<Batch>, processed: map<BatchId, Mark>, intent: Option<Intent>, id: BatchId, expected: Option<Digest>)
    : Result<Decision, PlannerError>
  {
    var ordered := Discover(listing);
    var b := Find(ordered, id);
    if b == None then Failure(NotCommitted)
    else if !ProcessedContentKept(processed, ordered) then Failure(ProcessedContentChanged)
    else if expected != None && b.value.manifest != expected.value then Failure(ManifestChanged)
    else
      var active := ActiveBatch(processed, intent, ordered);
      if active.Failure? then Failure(active.error)
      else if id in processed then Success(AlreadyProcessed)
      else
        var next := NextBatch(processed, active.value, ordered);
        if next == None || next.value.id != id then Failure(SkipsEarlier)
        else Success(Advance(b.value, active.value != None))
  }

  // ---------------------------------------------------------------- the planner and its files

  class CommerceBatchPlanner {
    /** Committed manifests, as the object store lists them; only landings change it. */
    var listing: seq<Batch>
    /** The checkpoint file. */
    var processed: map<BatchId, Mark>
    /** The active-intent file. */
    var intent: Option<Intent>

    constructor (listing: seq<Batch>, processed: map<BatchId, Mark>, intent: Option<Intent>)
      ensures this.listing == listing && this.processed == processed && this.intent == intent
    {
      this.listing, this.processed, this.intent := listing, processed, intent;
    }

    /** Reserve a batch before any compute; only the intent file changes. */
    method Begin(id: BatchId, manifest: Digest) returns (error: Option<PlannerError>)
      modifies this`intent
      ensures var r := Reserve(listing, processed, old(intent), id, manifest);
        if r.Success? then error == None && intent == r.value else error == Some(r.error) && intent == old(intent)
    {
      var ordered := Discover(listing);
      if !ProcessedContentKept(processed, ordered) { return Some(ProcessedContentChanged); }
      var active := ActiveBatch(processed, intent, ordered);
      if active.Failure? { return Some(active.error); }
      var batch := Find(ordered, id);
      if batch == None || batch.value.manifest != manifest { return Some(ManifestChanged); }
      var pending := Pending(processed, ordered);
      if pending == [] || batch != NextBatch(processed, active.value, ordered) { return Some(NotNext); }
      if active.value == None {
        intent := Some(IntentOf(batch.value));
      }
      error := None;
    }

    /** Advance the checkpoint by one batch. `remaining` is what the installed budget check answers
        directly before the file is replaced; None when no budget is installed. */
    method Commit(id: BatchId, expected: Option<Digest>, remaining: Option<int>) returns (result: Result<bool, PlannerError>)
      modifies this`processed, this`intent
      ensures var d := Decide(listing, old(processed), old(intent), id, expected);
        if d.Failure? then result == Failure(d.error) && processed == old(processed) && intent == old(intent)
        else if d.value == AlreadyProcessed then result == Success(false) && processed == old(processed) && intent == old(intent)
        else if remaining != None && remaining.value <= 0 then
          result == Failure(BudgetExhausted) && processed == old(processed) && intent == old(intent)
        else
          && result == Success(true)
          && processed == old(processed)[id := MarkOf(d.value.batch)]
          && intent == if d.value.reserved then None else old(intent)
    {
      var ordered := Discover(listing);
      var batch := Find(ordered, id);
      if batch == None { return Failure(NotCommitted); }
      if !ProcessedContentKept(processed, ordered) { return Failure(ProcessedContentChanged); }
      if expected != None && batch.value.manifest != expected.value { return Failure(ManifestChanged); }
      var active := ActiveBatch(processed, intent, ordered);
      if active.Failure? { return Failure(active.error); }
      if id in processed { return Success(false); }
      var next := NextBatch(processed, active.value, ordered);
      if next == None || next.value.id != id { return Failure(SkipsEarlier); }
      if remaining != None && remaining.value <= 0 { return Failure(BudgetExhausted); }
      processed := processed[id := MarkOf(batch.value)];
      if active.value != None {
        intent := None;
      }
      result := Success(true);
    }
  }

  // ---------------------------------------------------------------- what discovery promises

  ghost predicate DistinctIds(batches: seq<Batch>) {
    forall i, j :: 0 <= i < j < |batches| ==> batches[i].id != batches[j].id
  }

  ghost predicate Sorted(batches: seq<Batch>) {
    forall i, j :: 0 <= i < j < |batches| ==> Precedes(batches[i], batches[j])
  }

  lemma {:induction false} InsertKeeps(b: Batch, ordered: seq<Batch>)
    ensures multiset(Insert(b, ordered)) == multiset(ordered) + multiset{b}
    ensures forall c :: c in Insert(b, ordered) <==> c == b || c in ordered
  {
    if ordered != [] && !Precedes(b, ordered[0]) {
      InsertKeeps(b, ordered[1..]);
      assert ordered == [ordered[0]] + ordered[1..];
    }
  }

  lemma {:induction false} InsertSorts(b: Batch, ordered: seq<Batch>)
    requires Sorted(ordered)
    ensures Sorted(Insert(b, ordered))
  {
    if ordered != [] && !Precedes(b, ordered[0]) {
      var rest := Insert(b, ordered[1..]);
      InsertSorts(b, ordered[1..]);
      InsertKeeps(b, ordered[1..]);
      forall k | 0 <= k < |rest| ensures Precedes(ordered[0], rest[k]) {
        assert rest[k] in rest;
      }
    }
  }

  /** Discovery sorts and keeps exactly the listed batches. */
  lemma {:induction false} DiscoverSorts(listing: seq<Batch>)
    ensures Sorted(Discover(listing)) && multiset(Discover(listing)) == multiset(listing)
    ensures forall b :: b in Discover(listing) <==> b in listing
    ensures |Discover(listing)| == |listing|
  {
    if listing != [] {
      DiscoverSorts(listing[1..]);
      InsertSorts(listing[0], Discover(listing[1..]));
      InsertKeeps(listing[0], Discover(listing[1..]));
      assert listing == [listing[0]] + listing[1..];
    }
    SameBagSameRows(Discover(listing), listing);
  }

  /** By effective time, and by identifier at one time. */
  ghost predicate NoLater(a: Batch, b: Batch) {
    a.at <= b.at && (a.at == b.at ==> a.id <= b.id)
  }

  /** Discovery lists every committed batch, the earliest first. */
  lemma DiscoversByTime(listing: seq<Batch>)
    ensures multiset(Discover(listing)) == multiset(listing)
    ensures forall i, j :: 0 <= i < j < |Discover(listing)| ==> NoLater(Discover(listing)[i], Discover(listing)[j])
  {
    DiscoverSorts(listing);
  }

  lemma LeastIsFirst(a: seq<Batch>, b: seq<Batch>)
    requires Sorted(a) && Sorted(b) && multiset(a) == multiset(b) && DistinctIds(a) && a != []
    ensures b != [] && a[0] == b[0] && multiset(a[1..]) == multiset(b[1..])
  {
    SameBagSameRows(a, b);
    assert a[0] in b && b[0] in a;
    var i :| 0 <= i < |b| && b[i] == a[0];
    var j :| 0 <= j < |a| && a[j] == b[0];
    assert Precedes(a[0], b[0]) && Precedes(b[0], a[0]);
    assert a == [a[0]] + a[1..] && b == [b[0]] + b[1..];
    assert multiset(a[1..]) == multiset(a) - multiset{a[0]};
    assert multiset(b[1..]) == multiset(b) - multiset{b[0]};
  }

  lemma {:induction false} SortedIsUnique(a: seq<Batch>, b: seq<Batch>)
    requires Sorted(a) && Sorted(b) && multiset(a) == multiset(b) && DistinctIds(a)
    ensures a == b
  {
    SameBagSameRows(a, b);
    if a != [] {
      LeastIsFirst(a, b);
      SortedIsUnique(a[1..], b[1..]);
    }
  }

  lemma DistinctIdsOfBag(a: seq<Batch>, b: seq<Batch>)
    requires DistinctIds(a) && multiset(a) == multiset(b)
    ensures DistinctIds(b)
  {
    SameBagSameRows(a, b);
    SameBagNoDuplicates(a, b);
    forall i, j | 0 <= i < j < |b| ensures b[i].id != b[j].id {
      assert b[i] in a && b[j] in a;
    }
  }

  /** Discovery does not depend on the order in which the store lists manifests. */
  lemma DiscoverIgnoresListing(a: seq<Batch>, b: seq<Batch>)
    requires DistinctIds(a) && multiset(a) == multiset(b)
    ensures Discover(a) == Discover(b)
  {
    DiscoverSorts(a);
    DiscoverSorts(b);
    DistinctIdsOfBag(a, Discover(a));
    SortedIsUnique(Discover(a), Discover(b));
  }

  /** With distinct identifiers, looking a batch up finds it. */
  lemma FindsListed(listing: seq<Batch>, b: Batch)
    requires DistinctIds(listing) && b in listing
    ensures Find(Discover(listing), b.id) == Some(b)
  {
    DiscoverSorts(listing);
    DistinctIdsOfBag(listing, Discover(listing));
    var found := Find(Discover(listing), b.id);
    assert found != None;
  }

  // ---------------------------------------------------------------- reservation

  /** The persisted files agree with the committed manifests. */
  ghost predicate FilesAgree(listing: seq<Batch>, processed: map<BatchId, Mark>, intent: Option<Intent>) {
    && DistinctIds(listing)
    && (forall id :: id in processed ==> exists b :: b in listing && b.id == id && MarkOf(b) == processed[id])
    && (intent != None ==> exists b :: b in listing && IntentOf(b) == intent.value)
  }

  ghost predicate ReservedFor(listing: seq<Batch>, processed: map<BatchId, Mark>, intent: Option<Intent>, b: Batch) {
    b in listing && intent == Some(IntentOf(b)) && b.id !in processed
  }

  function OptionsFor(b: Batch, processed: map<BatchId, Mark>): Option<Mode> {
    if !b.fullSnapshot then None
    else Some(if exists p | p in processed :: b.at < processed[p].at then Rebuild else Forward)
  }

  lemma ChecksPass(listing: seq<Batch>, processed: map<BatchId, Mark>, intent: Option<Intent>)
    requires FilesAgree(listing, processed, intent)
    ensures ProcessedContentKept(processed, Discover(listing))
    ensures ActiveBatch(processed, intent, Discover(listing)).Success?
    ensures forall b :: b in listing && intent == Some(IntentOf(b)) ==>
      ActiveBatch(processed, intent, Discover(listing)).value == if b.id in processed then None else Some(b)
  {
    forall id | id in processed ensures Find(Discover(listing), id) != None && MarkOf(Find(Discover(listing), id).value) == processed[id] {
      var b :| b in listing && b.id == id && MarkOf(b) == processed[id];
      FindsListed(listing, b);
    }
    if intent != None {
      var b :| b in listing && IntentOf(b) == intent.value;
      FindsListed(listing, b);
      forall c | c in listing && intent == Some(IntentOf(c)) ensures c == b {
        FindsListed(listing, c);
      }
    }
  }

  lemma PlanPins(listing: seq<Batch>, processed: map<BatchId, Mark>, intent: Option<Intent>, b: Batch, maxBatches: int)
    requires FilesAgree(listing, processed, intent) && ReservedFor(listing, processed, intent, b) && maxBatches >= 1
    ensures var p := Plan(listing, processed, intent, maxBatches, []);
      p.Success? && 0 < |p.value.batches| <= maxBatches && p.value.batches[0] == b
  {
    ChecksPass(listing, processed, intent);
  }

  lemma DecisionsPin(listing: seq<Batch>, processed: map<BatchId, Mark>, intent: Option<Intent>, b: Batch, id: BatchId, expected: Option<Digest>)
    requires FilesAgree(listing, processed, intent) && ReservedFor(listing, processed, intent, b)
    ensures Decide(listing, processed, intent, b.id, Some(b.manifest)) == Success(Advance(b, true))
    ensures id != b.id && id !in processed ==> Decide(listing, processed, intent, id, expected).Failure?
  {
    ChecksPass(listing, processed, intent);
    FindsListed(listing, b);
  }

  lemma ReservePins(listing: seq<Batch>, processed: map<BatchId, Mark>, intent: Option<Intent>, b: Batch)
    requires FilesAgree(listing, processed, intent) && ReservedFor(listing, processed, intent, b)
    ensures Reserve(listing, processed, intent, b.id, b.manifest) == Success(intent)
  {
    ChecksPass(listing, processed, intent);
    FindsListed(listing, b);
    DiscoverSorts(listing);
    assert b in Pending(processed, Discover(listing));
  }

  lemma OptionsPin(listing: seq<Batch>, processed: map<BatchId, Mark>, intent: Option<Intent>, b: Batch)
    requires FilesAgree(listing, processed, intent) && b in listing
    ensures ExecutionOptions(listing, processed, b.id, b.manifest) == Success(OptionsFor(b, processed))
  {
    ChecksPass(listing, processed, intent);
    FindsListed(listing, b);
  }

  /** While a batch is reserved and not checkpointed every plan starts with it, begin() accepts it
      and leaves the intent alone, its mode depends on the checkpoint only, and commit() advances
      it and refuses every other unprocessed batch. */
  lemma ReservationPins(listing: seq<Batch>, processed: map<BatchId, Mark>, intent: Option<Intent>, b: Batch, maxBatches: int)
    requires FilesAgree(listing, processed, intent) && ReservedFor(listing, processed, intent, b) && maxBatches >= 1
    ensures var p := Plan(listing, processed, intent, maxBatches, []);
      p.Success? && 0 < |p.value.batches| <= maxBatches && p.value.batches[0] == b
    ensures Reserve(listing, processed, intent, b.id, b.manifest) == Success(intent)
    ensures ExecutionOptions(listing, processed, b.id, b.manifest) == Success(OptionsFor(b, processed))
    ensures Decide(listing, processed, intent, b.id, Some(b.manifest)) == Success(Advance(b, true))
    ensures forall id, expected :: id != b.id && id !in processed ==> Decide(listing, processed, intent, id, expected).Failure?
  {
    PlanPins(listing, processed, intent, b, maxBatches);
    ReservePins(listing, processed, intent, b);
    OptionsPin(listing, processed, intent, b);
    DecisionsPin(listing, processed, intent, b, b.id, None);
    forall id, expected | id != b.id && id !in processed ensures Decide(listing, processed, intent, id, expected).Failure? {
      DecisionsPin(listing, processed, intent, b, id, expected);
    }
  }

  /** An intent left behind by a crash between checkpoint and cleanup changes no decision. */
  lemma StaleIntentIsHarmless(listing: seq<Batch>, processed: map<BatchId, Mark>, intent: Option<Intent>, b: Batch,
    maxBatches: int, replays: seq<BatchId>, id: BatchId, manifest: Digest, expected: Option<Digest>)
    requires FilesAgree(listing, processed, intent) && b in listing && intent == Some(IntentOf(b)) && b.id in processed
    ensures Plan(listing, processed, intent, maxBatches, replays) == Plan(listing, processed, None, maxBatches, replays)
    ensures Decide(listing, processed, intent, id, expected) == Decide(listing, processed, None, id, expected)
    ensures Reserve(listing, processed, intent, id, manifest) == Reserve(listing, processed, None, id, manifest)
  {
  }

  /** Committing a checkpointed batch again changes nothing, reserved batch or not. */
  lemma RecommitIsNoOp(listing: seq<Batch>, processed: map<BatchId, Mark>, intent: Option<Intent>, id: BatchId)
    requires FilesAgree(listing, processed, intent) && id in processed
    ensures Decide(listing, processed, intent, id, Some(processed[id].manifest)) == Success(AlreadyProcessed)
    ensures Decide(listing, processed, intent, id, None) == Success(AlreadyProcessed)
  {
    ChecksPass(listing, processed, intent);
    var b :| b in listing && b.id == id && MarkOf(b) == processed[id];
    FindsListed(listing, b);
  }

  /** The head of the pending batches is the earliest unprocessed batch. */
  lemma FirstPending(listing: seq<Batch>, processed: map<BatchId, Mark>, b: Batch)
    requires DistinctIds(listing) && b in listing && b.id !in processed
    ensures var pending := Pending(processed, Discover(listing));
      pending != [] && pending[0] in listing && pending[0].id !in processed &&
      (pending[0] == b <==> forall c :: c in listing && c.id !in processed ==> Precedes(b, c)) &&
      (pending[0].id == b.id ==> pending[0] == b)
  {
    DiscoverSorts(listing);
    var ordered := Discover(listing);
    var pending := Pending(processed, ordered);
    FilterKeepsOrder(ordered, (c: Batch) => c.id !in processed);
    assert b in pending && pending[0] in pending;
    forall c | c in pending ensures Precedes(pending[0], c) {
      var k :| 0 <= k < |pending| && pending[k] == c;
    }
    FindsListed(listing, b);
    FindsListed(listing, pending[0]);
  }

  /** An unprocessed batch than which no unprocessed batch is earlier. */
  ghost predicate IsEarliest(listing: seq<Batch>, processed: map<BatchId, Mark>, b: Batch) {
    b in listing && b.id !in processed && forall c :: c in listing && c.id !in processed ==> NoLater(b, c)
  }

  /** Without a reservation the earliest unprocessed batch is next, and only it can be reserved or
      checkpointed. */
  lemma EarliestIsNext(listing: seq<Batch>, processed: map<BatchId, Mark>, b: Batch)
    requires FilesAgree(listing, processed, None) && b in listing && b.id !in processed
    ensures Decide(listing, processed, None, b.id, None).Success? <==> IsEarliest(listing, processed, b)
    ensures Reserve(listing, processed, None, b.id, b.manifest).Success? <==> IsEarliest(listing, processed, b)
  {
    ChecksPass(listing, processed, None);
    FindsListed(listing, b);
    FirstPending(listing, processed, b);
  }

  lemma {:induction false} FilterKeepsOrder(batches: seq<Batch>, keep: Batch -> bool)
    requires Sorted(batches)
    ensures Sorted(Filter(batches, keep))
  {
    if batches != [] {
      FilterKeepsOrder(batches[1..], keep);
      forall c | c in Filter(batches[1..], keep) ensures Precedes(batches[0], c) {
        var k :| 0 <= k < |batches[1..]| && batches[1..][k] == c;
      }
    }
  }

  /** What plan() lists when nothing is to be replayed. */
  lemma IncrementalPlan(listing: seq<Batch>, processed: map<BatchId, Mark>, intent: Option<Intent>, maxBatches: int)
    requires FilesAgree(listing, processed, intent) && maxBatches >= 1
    ensures var active := ActiveBatch(processed, intent, Discover(listing));
      var p := Plan(listing, processed, intent, maxBatches, []);
      && active.Success? && p.Success?
      && p.value.batches <= ActiveFirst(active.value, Pending(processed, Discover(listing)))
  {
    ChecksPass(listing, processed, intent);
  }

  /** What plan() selects is committed. */
  lemma PlannedIsListed(listing: seq<Batch>, processed: map<BatchId, Mark>, intent: Option<Intent>, maxBatches: int)
    requires FilesAgree(listing, processed, intent) && maxBatches >= 1
    ensures Plan(listing, processed, intent, maxBatches, []).Success?
    ensures forall b :: b in Plan(listing, processed, intent, maxBatches, []).value.batches ==> b in listing && b.id !in processed
  {
    IncrementalPlan(listing, processed, intent, maxBatches);
    DiscoverSorts(listing);
    var active := ActiveBatch(processed, intent, Discover(listing)).value;
    var selected := ActiveFirst(active, Pending(processed, Discover(listing)));
    var batches := Plan(listing, processed, intent, maxBatches, []).value.batches;
    forall b | b in batches ensures b in selected {
      var k :| 0 <= k < |batches| && batches[k] == b;
      assert selected[k] == b;
    }
  }

  /** An incremental plan without a reservation is the earliest unprocessed batches, in order, as many
      as allowed; it leaves out none that precedes one of its own. */
  lemma PlanIsEarliest(listing: seq<Batch>, processed: map<BatchId, Mark>, maxBatches: int)
    requires FilesAgree(listing, processed, None) && maxBatches >= 1
    ensures var p := Plan(listing, processed, None, maxBatches, []);
      && p.Success? && |p.value.batches| <= maxBatches
      && (forall i, j :: 0 <= i < j < |p.value.batches| ==> NoLater(p.value.batches[i], p.value.batches[j]))
      && (forall b :: b in p.value.batches ==> b in listing && b.id !in processed)
      && (forall b :: b in listing && b.id !in processed && b !in p.value.batches ==>
            |p.value.batches| == maxBatches && forall c :: c in p.value.batches ==> NoLater(c, b))
      && p.value.committed == |listing| && p.value.mode == Incremental && p.value.processed == |processed|
  {
    PlanIsSorted(listing, processed, maxBatches);
    var batches := Plan(listing, processed, None, maxBatches, []).value.batches;
    forall i, j | 0 <= i < j < |batches| ensures NoLater(batches[i], batches[j]) {
      assert Precedes(batches[i], batches[j]);
    }
  }

  lemma PlanIsSorted(listing: seq<Batch>, processed: map<BatchId, Mark>, maxBatches: int)
    requires FilesAgree(listing, processed, None) && maxBatches >= 1
    ensures var p := Plan(listing, processed, None, maxBatches, []);
      && p.Success? && Sorted(p.value.batches) && |p.value.batches| <= maxBatches
      && (forall b :: b in p.value.batches ==> b in listing && b.id !in processed)
      && (forall b :: b in listing && b.id !in processed && b !in p.value.batches ==>
            |p.value.batches| == maxBatches && forall c :: c in p.value.batches ==> Precedes(c, b))
      && p.value.committed == |listing| && p.value.mode == Incremental && p.value.processed == |processed|
  {
    ChecksPass(listing, processed, None);
    DiscoverSorts(listing);
    var pending := Pending(processed, Discover(listing));
    FilterKeepsOrder(Discover(listing), (b: Batch) => b.id !in processed);
    var selected := if |pending| > maxBatches then pending[..maxBatches] else pending;
    assert Plan(listing, processed, None, maxBatches, []).value.batches == selected;
    forall b | b in pending && b !in selected ensures |selected| == maxBatches && forall c :: c in selected ==> Precedes(c, b) {
      LaterIsLeftOut(pending, maxBatches, b);
    }
  }

  /** With a reservation the plan is the reserved batch and then the earliest of the others. */
  lemma ReservedThenEarliest(listing: seq<Batch>, processed: map<BatchId, Mark>, intent: Option<Intent>, b: Batch, maxBatches: int)
    requires FilesAgree(listing, processed, intent) && ReservedFor(listing, processed, intent, b) && maxBatches >= 1
    ensures var p := Plan(listing, processed, intent, maxBatches, []);
      && p.Success? && 0 < |p.value.batches| <= maxBatches && p.value.batches[0] == b
      && (var others := p.value.batches[1..];
        && (forall i, j :: 0 <= i < j < |others| ==> NoLater(others[i], others[j]))
        && (forall c :: c in others ==> c in listing && c.id !in processed && c != b)
        && (forall c :: c in listing && c.id !in processed && c != b && c !in others ==>
              |others| == maxBatches - 1 && forall d :: d in others ==> NoLater(d, c)))
  {
    ChecksPass(listing, processed, intent);
    DiscoverSorts(listing);
    var pending := Pending(processed, Discover(listing));
    var rest := Filter(pending, (c: Batch) => c != b);
    FilterKeepsOrder(Discover(listing), (c: Batch) => c.id !in processed);
    FilterKeepsOrder(pending, (c: Batch) => c != b);
    var others := if |rest| > maxBatches - 1 then rest[..maxBatches - 1] else rest;
    ReservedPlanIs(listing, processed, intent, b, maxBatches, rest);
    forall c | c in rest && c !in others ensures |others| == maxBatches - 1 && forall d :: d in others ==> NoLater(d, c) {
      LaterIsLeftOut(rest, maxBatches - 1, c);
    }
    forall i, j | 0 <= i < j < |others| ensures NoLater(others[i], others[j]) {
      assert Precedes(rest[i], rest[j]);
    }
  }

  lemma ReservedPlanIs(listing: seq<Batch>, processed: map<BatchId, Mark>, intent: Option<Intent>, b: Batch, maxBatches: int, rest: seq<Batch>)
    requires FilesAgree(listing, processed, intent) && ReservedFor(listing, processed, intent, b) && maxBatches >= 1
    requires rest == Filter(Pending(processed, Discover(listing)), (c: Batch) => c != b)
    ensures var p := Plan(listing, processed, intent, maxBatches, []);
      p.Success? && p.value.batches == [b] + if |rest| > maxBatches - 1 then rest[..maxBatches - 1] else rest
  {
    ChecksPass(listing, processed, intent);
    var selected := [b] + rest;
    assert |selected| > maxBatches ==> selected[..maxBatches] == [b] + rest[..maxBatches - 1];
  }

  lemma LaterIsLeftOut(pending: seq<Batch>, n: nat, b: Batch)
    requires Sorted(pending) && n < |pending| && b in pending && b !in pending[..n]
    ensures forall c :: c in pending[..n] ==> Precedes(c, b)
  {
    assert pending == pending[..n] + pending[n..];
    var k :| 0 <= k < |pending[n..]| && pending[n..][k] == b;
    forall c | c in pending[..n] ensures Precedes(c, b) {
      var i :| 0 <= i < n && pending[i] == c;
      assert pending[n + k] == b;
    }
  }

  lemma {:induction false} FoundAll(batches: seq<Batch>, ids: seq<BatchId>)
    ensures AllFound(batches, ids) == None <==> exists i :: 0 <= i < |ids| && Find(batches, ids[i]) == None
    ensures AllFound(batches, ids) != None ==>
      |AllFound(batches, ids).value| == |ids| && forall i :: 0 <= i < |ids| ==> Find(batches, ids[i]) == Some(AllFound(batches, ids).value[i])
  {
    if ids != [] {
      FoundAll(batches, ids[1..]);
      if i :| 0 <= i < |ids| && Find(batches, ids[i]) == None {
        if i > 0 {
          assert ids[1..][i - 1] == ids[i];
        }
      }
      if i :| 0 <= i < |ids[1..]| && Find(batches, ids[1..][i]) == None {
        assert ids[i + 1] == ids[1..][i];
      }
    }
  }

  lemma ReplayPlan(listing: seq<Batch>, processed: map<BatchId, Mark>, intent: Option<Intent>, maxBatches: int, replays: seq<BatchId>)
    requires FilesAgree(listing, processed, intent) && maxBatches >= 1 && replays != []
    ensures var p, found := Plan(listing, processed, intent, maxBatches, replays), AllFound(Discover(listing), replays);
      && (p.Success? <==> |replays| <= maxBatches && !Repeats(replays) && found != None)
      && (p.Success? ==> p.value == PlanReport(found.value, |listing|, ReplayRequested, |processed|))
  {
    ChecksPass(listing, processed, intent);
    DiscoverSorts(listing);
  }

  /** A replay is granted exactly when it names distinct committed batches, at most the maximum; then
      it has those batches in the order named, reservation or not. */
  lemma ReplayExactly(listing: seq<Batch>, processed: map<BatchId, Mark>, intent: Option<Intent>, maxBatches: int, replays: seq<BatchId>)
    requires FilesAgree(listing, processed, intent) && maxBatches >= 1 && replays != []
    ensures var p := Plan(listing, processed, intent, maxBatches, replays);
      && (p.Success? <==> |replays| <= maxBatches && NoDuplicates(replays) && forall id :: id in replays ==> IsCommitted(listing, id))
      && (p.Success? ==> |p.value.batches| == |replays|)
      && (p.Success? ==> forall i :: 0 <= i < |replays| ==> p.value.batches[i] in listing && p.value.batches[i].id == replays[i])
  {
    ReplayPlan(listing, processed, intent, maxBatches, replays);
    assert Repeats(replays) <==> !NoDuplicates(replays);
    FoundAll(Discover(listing), replays);
    DiscoverSorts(listing);
    forall id ensures Find(Discover(listing), id) != None <==> IsCommitted(listing, id) {
    }
    forall i | 0 <= i < |replays| ensures replays[i] in replays {
    }
  }

  ghost predicate IsCommitted(listing: seq<Batch>, id: BatchId) {
    exists b :: b in listing && b.id == id
  }

  /** While any batch is unprocessed there is a next one, committed and unprocessed. */
  lemma NextExists(listing: seq<Batch>, processed: map<BatchId, Mark>, intent: Option<Intent>, b: Batch) returns (next: Batch)
    requires FilesAgree(listing, processed, intent) && b in listing && b.id !in processed
    ensures var active := ActiveBatch(processed, intent, Discover(listing));
      && active.Success? && NextBatch(processed, active.value, Discover(listing)) == Some(next)
      && ActiveFirst(active.value, Pending(processed, Discover(listing))) != []
      && ActiveFirst(active.value, Pending(processed, Discover(listing)))[0] == next
    ensures next in listing && next.id !in processed && Pending(processed, Discover(listing)) != []
  {
    ChecksPass(listing, processed, intent);
    FirstPending(listing, processed, b);
    var active := ActiveBatch(processed, intent, Discover(listing)).value;
    next := if active == None then Pending(processed, Discover(listing))[0] else active.value;
  }

  lemma NextCanBegin(listing: seq<Batch>, processed: map<BatchId, Mark>, intent: Option<Intent>, next: Batch)
    requires FilesAgree(listing, processed, intent) && next in listing && Pending(processed, Discover(listing)) != []
    requires ActiveBatch(processed, intent, Discover(listing)).Success?
    requires NextBatch(processed, ActiveBatch(processed, intent, Discover(listing)).value, Discover(listing)) == Some(next)
    ensures Reserve(listing, processed, intent, next.id, next.manifest).Success?
  {
    ChecksPass(listing, processed, intent);
    FindsListed(listing, next);
  }

  lemma PlanOfOne(listing: seq<Batch>, processed: map<BatchId, Mark>, intent: Option<Intent>)
    requires FilesAgree(listing, processed, intent) && ActiveBatch(processed, intent, Discover(listing)).Success?
    ensures var selected := ActiveFirst(ActiveBatch(processed, intent, Discover(listing)).value, Pending(processed, Discover(listing)));
      var p := Plan(listing, processed, intent, 1, []);
      p.Success? && p.value.batches == if |selected| > 1 then selected[..1] else selected
  {
    ChecksPass(listing, processed, intent);
  }

  /** While any batch is unprocessed, plan() selects one that begin() accepts. */
  lemma PlannedCanBegin(listing: seq<Batch>, processed: map<BatchId, Mark>, intent: Option<Intent>, b: Batch)
    requires FilesAgree(listing, processed, intent) && b in listing && b.id !in processed
    ensures var p := Plan(listing, processed, intent, 1, []);
      && p.Success? && |p.value.batches| == 1
      && p.value.batches[0] in listing && p.value.batches[0].id !in processed
      && Reserve(listing, processed, intent, p.value.batches[0].id, p.value.batches[0].manifest).Success?
  {
    var next := NextExists(listing, processed, intent, b);
    NextCanBegin(listing, processed, intent, next);
    PlanOfOne(listing, processed, intent);
  }

  /** A successful begin() leaves the selected batch reserved, and never steals a reservation. */
  lemma ReserveReserves(listing: seq<Batch>, processed: map<BatchId, Mark>, intent: Option<Intent>, b: Batch)
    requires FilesAgree(listing, processed, intent) && b in listing
    requires Reserve(listing, processed, intent, b.id, b.manifest).Success?
    ensures var reserved := Reserve(listing, processed, intent, b.id, b.manifest).value;
      && ReservedFor(listing, processed, reserved, b) && FilesAgree(listing, processed, reserved)
      && forall a :: ReservedFor(listing, processed, intent, a) ==> a == b
  {
    ChecksPass(listing, processed, intent);
    FindsListed(listing, b);
    DiscoverSorts(listing);
    var active := ActiveBatch(processed, intent, Discover(listing)).value;
    if active == None {
      assert Pending(processed, Discover(listing))[0] in Pending(processed, Discover(listing));
    }
  }

  lemma OneReserved(listing: seq<Batch>, processed: map<BatchId, Mark>, intent: Option<Intent>, a: Batch, b: Batch)
    requires DistinctIds(listing) && ReservedFor(listing, processed, intent, a) && ReservedFor(listing, processed, intent, b)
    ensures a == b
  {
  }

  // ---------------------------------------------------------------- when the planner refuses

  /** Every checkpointed batch is still committed, at the recorded time with the recorded manifest. */
  ghost predicate ContentKept(listing: seq<Batch>, processed: map<BatchId, Mark>) {
    forall id :: id in processed ==> exists b :: b in listing && b.id == id && b.at == processed[id].at && b.manifest == processed[id].manifest
  }

  /** The batch named by the intent, if any, is still committed as it was. */
  ghost predicate IntentKept(listing: seq<Batch>, intent: Option<Intent>) {
    intent == None || exists b :: b in listing && b.id == intent.value.id && b.at == intent.value.at && b.manifest == intent.value.manifest
  }

  ghost predicate Committed(listing: seq<Batch>, b: Batch, id: BatchId, expected: Option<Digest>) {
    b in listing && b.id == id && (expected == None || b.manifest == expected.value)
  }

  /** The batch that may run: the reserved one if it is not checkpointed, else the earliest. */
  ghost predicate MayRun(listing: seq<Batch>, processed: map<BatchId, Mark>, intent: Option<Intent>, b: Batch) {
    && b.id !in processed
    && if intent != None && intent.value.id !in processed then b.id == intent.value.id else IsEarliest(listing, processed, b)
  }

  lemma ContentKeptExactly(listing: seq<Batch>, processed: map<BatchId, Mark>)
    requires DistinctIds(listing)
    ensures ProcessedContentKept(processed, Discover(listing)) <==> ContentKept(listing, processed)
  {
    DiscoverSorts(listing);
    forall id | id in processed
      ensures (var b := Find(Discover(listing), id); b != None && MarkOf(b.value) == processed[id]) <==>
        exists b :: b in listing && b.id == id && b.at == processed[id].at && b.manifest == processed[id].manifest
    {
      if b :| b in listing && b.id == id {
        FindsListed(listing, b);
        OnlyOne(listing, b);
      }
    }
  }

  lemma OnlyOne(listing: seq<Batch>, b: Batch)
    requires DistinctIds(listing) && b in listing
    ensures forall c :: c in listing && c.id == b.id ==> c == b
  {
  }

  lemma ActiveExactly(listing: seq<Batch>, processed: map<BatchId, Mark>, intent: Option<Intent>)
    requires DistinctIds(listing)
    ensures var active := ActiveBatch(processed, intent, Discover(listing));
      && (active.Success? <==> IntentKept(listing, intent))
      && (active.Success? ==> (active.value != None <==> intent != None && intent.value.id !in processed))
      && (active.Success? && active.value != None ==> active.value.value in listing && active.value.value.id == intent.value.id)
  {
    DiscoverSorts(listing);
    if intent != None {
      if b :| b in listing && b.id == intent.value.id {
        FindsListed(listing, b);
        OnlyOne(listing, b);
      }
    }
  }

  lemma FoundExactly(listing: seq<Batch>, id: BatchId)
    requires DistinctIds(listing)
    ensures Find(Discover(listing), id) != None <==> IsCommitted(listing, id)
    ensures forall b :: b in listing && b.id == id ==> Find(Discover(listing), id) == Some(b)
  {
    DiscoverSorts(listing);
    forall b | b in listing && b.id == id ensures Find(Discover(listing), id) == Some(b) {
      FindsListed(listing, b);
    }
  }

  /** What comes next, reserved or earliest. */
  lemma NextExactly(listing: seq<Batch>, processed: map<BatchId, Mark>, intent: Option<Intent>, b: Batch)
    requires DistinctIds(listing) && IntentKept(listing, intent) && b in listing && b.id !in processed
    ensures var active := ActiveBatch(processed, intent, Discover(listing));
      && active.Success? && (NextBatch(processed, active.value, Discover(listing)) == Some(b) <==> MayRun(listing, processed, intent, b))
      && (NextBatch(processed, active.value, Discover(listing)) == Some(b) <==>
            NextBatch(processed, active.value, Discover(listing)) != None && NextBatch(processed, active.value, Discover(listing)).value.id == b.id)
      && Pending(processed, Discover(listing)) != []
  {
    ActiveExactly(listing, processed, intent);
    FirstPending(listing, processed, b);
    OnlyOne(listing, b);
  }

  /** An incremental plan is made if and only if the files agree with what is committed. */
  lemma PlanExactly(listing: seq<Batch>, processed: map<BatchId, Mark>, intent: Option<Intent>, maxBatches: int)
    requires DistinctIds(listing)
    ensures Plan(listing, processed, intent, maxBatches, []).Success? <==>
      maxBatches >= 1 && ContentKept(listing, processed) && IntentKept(listing, intent)
  {
    ContentKeptExactly(listing, processed);
    ActiveExactly(listing, processed, intent);
  }

  lemma CommittedExactly(listing: seq<Batch>, id: BatchId, expected: Option<Digest>)
    requires DistinctIds(listing)
    ensures var found := Find(Discover(listing), id);
      && (found != None ==> found.value in listing && found.value.id == id)
      && forall b :: Committed(listing, b, id, expected) <==> found == Some(b) && (expected == None || b.manifest == expected.value)
  {
    FoundExactly(listing, id);
    DiscoverSorts(listing);
  }

  /** A mode is given if and only if the checkpoint agrees and the batch is committed with the manifest:
      none unless it is a declared full snapshot, forward if no checkpointed batch is later. */
  lemma OptionsExactly(listing: seq<Batch>, processed: map<BatchId, Mark>, id: BatchId, manifest: Digest)
    requires DistinctIds(listing)
    ensures ExecutionOptions(listing, processed, id, manifest).Success? <==>
      ContentKept(listing, processed) && exists b :: Committed(listing, b, id, Some(manifest))
    ensures forall b :: Committed(listing, b, id, Some(manifest)) && ContentKept(listing, processed) ==>
      ExecutionOptions(listing, processed, id, manifest) ==
        Success(if !b.fullSnapshot then None else if forall p :: p in processed ==> processed[p].at <= b.at then Some(Forward) else Some(Rebuild))
  {
    ContentKeptExactly(listing, processed);
    CommittedExactly(listing, id, Some(manifest));
    var found := Find(Discover(listing), id);
    if found != None {
      assert Committed(listing, found.value, id, Some(manifest)) <==> found.value.manifest == manifest;
    }
  }

  /** begin() accepts if and only if the files agree and the batch, committed with the manifest, may
      run; it then writes the intent for it unless that is there already. */
  lemma ReserveExactly(listing: seq<Batch>, processed: map<BatchId, Mark>, intent: Option<Intent>, id: BatchId, manifest: Digest)
    requires DistinctIds(listing)
    ensures Reserve(listing, processed, intent, id, manifest).Success? <==>
      && ContentKept(listing, processed) && IntentKept(listing, intent)
      && exists b :: Committed(listing, b, id, Some(manifest)) && MayRun(listing, processed, intent, b)
    ensures Reserve(listing, processed, intent, id, manifest).Success? ==>
      exists b :: Committed(listing, b, id, Some(manifest)) && Reserve(listing, processed, intent, id, manifest).value == Some(Intent(b.id, b.at, b.manifest))
  {
    ContentKeptExactly(listing, processed);
    ActiveExactly(listing, processed, intent);
    CommittedExactly(listing, id, Some(manifest));
    var found := Find(Discover(listing), id);
    if found != None {
      assert Committed(listing, found.value, id, Some(manifest)) <==> found.value.manifest == manifest;
      if IntentKept(listing, intent) {
        AcceptedExactly(listing, processed, intent, found.value);
      }
    }
  }

  /** begin() and commit() look for the same next batch. */
  lemma AcceptedExactly(listing: seq<Batch>, processed: map<BatchId, Mark>, intent: Option<Intent>, b: Batch)
    requires DistinctIds(listing) && IntentKept(listing, intent) && b in listing
    requires ActiveBatch(processed, intent, Discover(listing)).Success?
    ensures var active := ActiveBatch(processed, intent, Discover(listing)).value;
      var next := NextBatch(processed, active, Discover(listing));
      && (MayRun(listing, processed, intent, b) <==> b.id !in processed && next == Some(b))
      && (b.id in processed ==> next != Some(b))
      && (b.id !in processed ==> Pending(processed, Discover(listing)) != [] && next != None && (next.value.id == b.id <==> next == Some(b)))
      && (next == Some(b) && active != None ==> intent == Some(IntentOf(b)))
  {
    ActiveExactly(listing, processed, intent);
    DiscoverSorts(listing);
    if b.id !in processed {
      NextExactly(listing, processed, intent, b);
    }
  }

  /** commit() accepts if and only if the files agree and the batch, committed with the expected
      manifest, is checkpointed already or may run; only then is there something to advance. */
  lemma DecideExactly(listing: seq<Batch>, processed: map<BatchId, Mark>, intent: Option<Intent>, id: BatchId, expected: Option<Digest>)
    requires DistinctIds(listing)
    ensures Decide(listing, processed, intent, id, expected).Success? <==>
      && ContentKept(listing, processed) && IntentKept(listing, intent)
      && exists b :: Committed(listing, b, id, expected) && (id in processed || MayRun(listing, processed, intent, b))
    ensures Decide(listing, processed, intent, id, expected).Success? ==>
      var d := Decide(listing, processed, intent, id, expected).value;
      if id in processed then d == AlreadyProcessed
      else d.Advance? && d.batch in listing && d.batch.id == id && (d.reserved <==> intent != None && intent.value.id !in processed)
  {
    ContentKeptExactly(listing, processed);
    ActiveExactly(listing, processed, intent);
    CommittedExactly(listing, id, expected);
    var found := Find(Discover(listing), id);
    if found != None {
      assert Committed(listing, found.value, id, expected) <==> expected == None || found.value.manifest == expected.value;
      if IntentKept(listing, intent) {
        AcceptedExactly(listing, processed, intent, found.value);
      }
    }
  }
}
