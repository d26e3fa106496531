/** The order silver job: latest copy of each order wins, references must be known. */
module SilverOrders {
  import opened Types
  import opened Frames
  import opened MergeStatement
  import opened SilverJob

  datatype Order = Order(
    batch: BatchId, batchAt: Instant, digest: Digest, occurrence: nat,
    orderId: Text, customerId: Text, productId: Text,
    quantity: Option<int>, unitPrice: Option<int>, total: Option<int>,
    eventAt: Option<Instant>, ingestedAt: Option<Instant>)

  datatype OrderError =
    | MissingOrderId | MissingCustomerId | MissingProductId
    | MissingQuantity | NonPositiveQuantity | MissingUnitPrice | NonPositiveUnitPrice
    | MissingTotal | NonPositiveTotal | TotalMismatch
    | MissingEventAt | MissingIngestedAt | UnknownCustomer | UnknownProduct | DuplicateOrderId

  datatype Classified = Classified(row: Order, rank: nat, knownCustomer: Text, knownProduct: Text, errors: seq<OrderError>)

  datatype ValidOrder = ValidOrder(
    batch: BatchId, batchAt: Instant, digest: Digest, orderId: Text, customerId: Text, productId: Text,
    quantity: int, unitPrice: int, total: int, eventAt: Instant, ingestedAt: Instant, isLate: bool)

  datatype OrderReject = OrderReject(row: Order, errors: seq<OrderError>)

  const LATE_AFTER: Instant := 30 * 24 * 3600 * 1_000_000

  // ---------------------------------------------------------------- classification

  predicate SameOrder(a: Order, b: Order) {
    a.orderId == b.orderId
  }

  /** ingested_at descending with nulls last, then hash descending, then occurrence ascending. */
  predicate Newer(a: Order, b: Order) {
    if a.ingestedAt != b.ingestedAt then
      a.ingestedAt != None && (b.ingestedAt == None || a.ingestedAt.value > b.ingestedAt.value)
    else if a.digest != b.digest then a.digest > b.digest
    else a.occurrence < b.occurrence
  }

  function Rank(rows: seq<Order>, r: Order): nat {
    RowNumber(rows, SameOrder, Newer, r)
  }

  /** The checks of one row, in the order of the job. */
  function Checks(r: Order, rank: nat, knownCustomer: Text, knownProduct: Text): seq<(bool, OrderError)> {
    [
      (!r.orderId.Word?, MissingOrderId),
      (!r.customerId.Word?, MissingCustomerId),
      (!r.productId.Word?, MissingProductId),
      (r.quantity == None, MissingQuantity),
      (r.quantity != None && r.quantity.value <= 0, NonPositiveQuantity),
      (r.unitPrice == None, MissingUnitPrice),
      (r.unitPrice != None && r.unitPrice.value <= 0, NonPositiveUnitPrice),
      (r.total == None, MissingTotal),
      (r.total != None && r.total.value <= 0, NonPositiveTotal),
      (r.quantity != None && r.unitPrice != None && r.total != None && r.total.value != r.quantity.value * r.unitPrice.value, TotalMismatch),
      (r.eventAt == None, MissingEventAt),
      (r.ingestedAt == None, MissingIngestedAt),
      (knownCustomer == Null, UnknownCustomer),
      (knownProduct == Null, UnknownProduct),
      (rank > 1, DuplicateOrderId)
    ]
  }

  function QualityErrors(r: Order, rank: nat, knownCustomer: Text, knownProduct: Text): seq<OrderError> {
    Reported(Checks(r, rank, knownCustomer, knownProduct))
  }

  /** Rank first, then both reference joins, then the error list. */
  function Classify(rows: seq<Order>, customerIds: seq<Text>, productIds: seq<Text>): seq<Classified> {
    var withCustomer := LeftJoin(rows, Distinct(customerIds), (r: Order) => r.customerId);
    var withProduct := LeftJoin(withCustomer, Distinct(productIds), (r: (Order, Text)) => r.0.productId);
    Map(withProduct, (r: ((Order, Text), Text)) =>
      var rank := Rank(rows, r.0.0);
      Classified(r.0.0, rank, r.0.1, r.1, QualityErrors(r.0.0, rank, r.0.1, r.1)))
  }

  /** The selected columns; the job only selects them from clean rows, which have them all. */
  function ToValid(c: Classified): ValidOrder {
    var r := c.row;
    if r.quantity != None && r.unitPrice != None && r.total != None && r.eventAt != None && r.ingestedAt != None then
      ValidOrder(r.batch, r.batchAt, r.digest, r.orderId, r.customerId, r.productId, r.quantity.value, r.unitPrice.value,
        r.total.value, r.eventAt.value, r.ingestedAt.value, r.eventAt.value < r.batchAt - LATE_AFTER)
    else ValidOrder(r.batch, r.batchAt, r.digest, r.orderId, r.customerId, r.productId, 0, 0, 0, 0, 0, false)
  }

  predicate IsClean(c: Classified) {
    c.errors == []
  }

  predicate IsDirty(c: Classified) {
    c.errors != []
  }

  function ToReject(c: Classified): OrderReject {
    OrderReject(c.row, c.errors)
  }

  function ValidKey(v: ValidOrder): (BatchId, Text) {
    (v.batch, v.orderId)
  }

  function RejectIdOf(j: OrderReject): RejectKey {
    RejectKey(j.row.batch, j.row.digest, j.row.occurrence)
  }

  /** What one run publishes, having read the batch in the given order. */
  function Publication(rows: seq<Order>, customerIds: seq<Text>, productIds: seq<Text>, survives: bool): Attempt<ValidOrder, OrderReject> {
    var classified := Classify(rows, customerIds, productIds);
    Attempt(Selected(classified, IsClean, ToValid), Selected(classified, IsDirty, ToReject), survives)
  }

  function ValidIn(batch: BatchId): ValidOrder -> bool {
    (v: ValidOrder) => v.batch == batch
  }

  function RejectIn(batch: BatchId): OrderReject -> bool {
    (j: OrderReject) => j.row.batch == batch
  }

  /** One run of the job over the two tables. */
  method WriteSelectedBatch(tables: SilverTables<ValidOrder, OrderReject>, batch: BatchId, bronze: seq<Order>, customerIds: seq<Text>, productIds: seq<Text>)
    returns (result: Result<(nat, nat), SilverError>)
    modifies tables
    ensures bronze != [] ==>
      Tables(tables.valid, tables.rejects) ==
        RunAttempts(Tables(old(tables.valid), old(tables.rejects)), [Publication(bronze, customerIds, productIds, true)], ValidKey, RejectIdOf)
    ensures bronze == [] ==> result == Failure(EmptyBatch) && tables.valid == old(tables.valid) && tables.rejects == old(tables.rejects)
    ensures bronze != [] ==> (result.Success? <==>
      |Part(tables.valid, ValidIn(batch))| == |Publication(bronze, customerIds, productIds, true).valid| &&
      |Part(tables.rejects, RejectIn(batch))| == |Publication(bronze, customerIds, productIds, true).rejects|)
    ensures bronze != [] && BronzeBatch(bronze, batch) && Untouched(batch, old(tables.valid), old(tables.rejects)) ==>
      && result == Success((|Part(tables.valid, ValidIn(batch))|, |Part(tables.rejects, RejectIn(batch))|))
      && Published(batch, bronze, customerIds, productIds, tables.valid, tables.rejects)
      && Others(tables.valid, ValidIn(batch)) == old(tables.valid) && Others(tables.rejects, RejectIn(batch)) == old(tables.rejects)
  {
    if bronze != [] && BronzeBatch(bronze, batch) && Untouched(batch, tables.valid, tables.rejects) {
      FirstRunPublishes(Tables(tables.valid, tables.rejects), batch, bronze, customerIds, productIds);
    }
    var bronzeRows := |Classify(bronze, customerIds, productIds)|;
    if bronze == [] {
      return Failure(EmptyBatch);
    }
    EveryRowIsClassified(bronze, customerIds, productIds);
    SplitIsComplete(bronze, customerIds, productIds, true);
    result := tables.WriteSelectedBatch(bronzeRows, Publication(bronze, customerIds, productIds, true), ValidKey, RejectIdOf, ValidIn(batch), RejectIn(batch));
  }

  // ---------------------------------------------------------------- the split

  /** The joins never multiply or drop a row: classified row i is bronze row i. */
  lemma EveryRowIsClassified(rows: seq<Order>, customerIds: seq<Text>, productIds: seq<Text>)
    ensures var classified := Classify(rows, customerIds, productIds);
      |classified| == |rows| &&
      forall i :: 0 <= i < |rows| ==> classified[i] == ClassifiedRow(rows, customerIds, productIds, rows[i])
  {
    var withCustomer := LeftJoin(rows, Distinct(customerIds), (r: Order) => r.customerId);
    JoinKeepsRows(rows, Distinct(customerIds), (r: Order) => r.customerId);
    JoinKeepsRows(withCustomer, Distinct(productIds), (r: (Order, Text)) => r.0.productId);
  }

  lemma RowsAreKept(rows: seq<Order>, customerIds: seq<Text>, productIds: seq<Text>)
    ensures var classified := Classify(rows, customerIds, productIds);
      |classified| == |rows| && forall i :: 0 <= i < |rows| ==> classified[i].row == rows[i]
  {
    EveryRowIsClassified(rows, customerIds, productIds);
  }

  function ClassifiedRow(rows: seq<Order>, customerIds: seq<Text>, productIds: seq<Text>, r: Order): Classified {
    var c, p := Known(Distinct(customerIds), r.customerId), Known(Distinct(productIds), r.productId);
    Classified(r, Rank(rows, r), c, p, QualityErrors(r, Rank(rows, r), c, p))
  }

  /** Valid and rejected rows add up to the bronze rows, so the count guard never fires. */
  lemma SplitIsComplete(rows: seq<Order>, customerIds: seq<Text>, productIds: seq<Text>, survives: bool)
    ensures var p := Publication(rows, customerIds, productIds, survives); |p.valid| + |p.rejects| == |rows|
  {
    EveryRowIsClassified(rows, customerIds, productIds);
    SelectionsSplit(Classify(rows, customerIds, productIds), IsClean, IsDirty, ToValid, ToReject);
  }

  /** No copy q of r's order in the batch was ingested later, a copy without ingestion time counting as
      the earliest; equal times go by the greater hash, equal hashes by the smaller occurrence. */
  ghost predicate NewestCopy(rows: seq<Order>, r: Order) {
    forall q :: q in rows && q.orderId == r.orderId ==>
      && (q.ingestedAt != None ==> r.ingestedAt != None && q.ingestedAt.value <= r.ingestedAt.value)
      && (q.ingestedAt == r.ingestedAt ==> q.digest <= r.digest && (q.digest == r.digest ==> r.occurrence <= q.occurrence))
  }

  predicate IsMissing(t: Text) {
    t == Null || t.Blank?
  }

  /** What each error says of the row. */
  ghost predicate HasError(rows: seq<Order>, customerIds: seq<Text>, productIds: seq<Text>, r: Order, error: OrderError) {
    match error
    case MissingOrderId => IsMissing(r.orderId)
    case MissingCustomerId => IsMissing(r.customerId)
    case MissingProductId => IsMissing(r.productId)
    case MissingQuantity => r.quantity == None
    case NonPositiveQuantity => r.quantity != None && r.quantity.value <= 0
    case MissingUnitPrice => r.unitPrice == None
    case NonPositiveUnitPrice => r.unitPrice != None && r.unitPrice.value <= 0
    case MissingTotal => r.total == None
    case NonPositiveTotal => r.total != None && r.total.value <= 0
    case TotalMismatch =>
      r.quantity != None && r.unitPrice != None && r.total != None && r.total.value != r.quantity.value * r.unitPrice.value
    case MissingEventAt => r.eventAt == None
    case MissingIngestedAt => r.ingestedAt == None
    case UnknownCustomer => r.customerId == Null || r.customerId !in customerIds
    case UnknownProduct => r.productId == Null || r.productId !in productIds
    case DuplicateOrderId => !NewestCopy(rows, r)
  }

  function CheckOf(error: OrderError): nat {
    match error
    case MissingOrderId => 0
    case MissingCustomerId => 1
    case MissingProductId => 2
    case MissingQuantity => 3
    case NonPositiveQuantity => 4
    case MissingUnitPrice => 5
    case NonPositiveUnitPrice => 6
    case MissingTotal => 7
    case NonPositiveTotal => 8
    case TotalMismatch => 9
    case MissingEventAt => 10
    case MissingIngestedAt => 11
    case UnknownCustomer => 12
    case UnknownProduct => 13
    case DuplicateOrderId => 14
  }

  /** Complete, consistent, with known references, and the newest of its order. */
  ghost predicate Acceptable(rows: seq<Order>, customerIds: seq<Text>, productIds: seq<Text>, r: Order) {
    && r.orderId.Word? && r.customerId in customerIds && r.customerId.Word? && r.productId in productIds && r.productId.Word?
    && r.quantity != None && r.quantity.value > 0 && r.unitPrice != None && r.unitPrice.value > 0
    && r.total == Some(r.quantity.value * r.unitPrice.value) && r.eventAt != None && r.ingestedAt != None
    && NewestCopy(rows, r)
  }

  function BronzeIdOf(r: Order): (Digest, nat) { (r.digest, r.occurrence) }

  /** Bronze rows of one batch: no two share hash and occurrence. */
  ghost predicate BronzeBatch(rows: seq<Order>, batch: BatchId) {
    && (forall i, j :: 0 <= i < j < |rows| ==> rows[i].digest != rows[j].digest || rows[i].occurrence != rows[j].occurrence)
    && (forall r :: r in rows ==> r.batch == batch)
  }

  lemma NewerOrders(rows: seq<Order>, batch: BatchId)
    requires BronzeBatch(rows, batch)
    ensures Ordered(rows, SameOrder, Newer)
  {
  }

  /** Every order that bronze has has exactly one row that is not a duplicate. */
  lemma OneNewestRow(rows: seq<Order>, batch: BatchId, r: Order) returns (newest: Order)
    requires BronzeBatch(rows, batch) && r in rows
    ensures newest in rows && newest.orderId == r.orderId && Rank(rows, newest) == 1
    ensures forall q :: q in rows && q.orderId == r.orderId && Rank(rows, q) == 1 ==> q == newest
  {
    NewerOrders(rows, batch);
    newest := FirstExists(rows, SameOrder, Newer, r);
    forall q | q in rows && q.orderId == r.orderId && Rank(rows, q) == 1 ensures q == newest {
      FirstIsUnique(rows, SameOrder, Newer, q, newest);
    }
  }

  /** The row ranked first is the newest copy of its order, and the only one. */
  lemma FirstIsNewest(rows: seq<Order>, batch: BatchId, r: Order)
    requires BronzeBatch(rows, batch) && r in rows
    ensures Rank(rows, r) == 1 <==> NewestCopy(rows, r)
  {
    NewerOrders(rows, batch);
    var newest := OneNewestRow(rows, batch, r);
    if Rank(rows, r) == 1 {
      forall q | q in rows && q.orderId == r.orderId ensures q == r || Newer(r, q) {
        NothingBefore(rows, r, q);
      }
    }
    if NewestCopy(rows, r) {
      NothingBefore(rows, newest, r);
    }
  }

  /** Nothing of its order comes before the row ranked first. */
  lemma NothingBefore(rows: seq<Order>, r: Order, q: Order)
    requires Rank(rows, r) == 1 && q in rows && q.orderId == r.orderId
    ensures !Newer(q, r)
  {
    var earlier := Filter(rows, (x: Order) => SameOrder(x, r) && Newer(x, r));
    assert q in earlier <==> q in rows && SameOrder(q, r) && Newer(q, r);
  }

  /** Check n is the one that CheckOf numbers n. */
  lemma ChecksAreNumbered(r: Order, rank: nat, knownCustomer: Text, knownProduct: Text)
    ensures var checks := Checks(r, rank, knownCustomer, knownProduct);
      |checks| == 15 && (forall i :: 0 <= i < 15 ==> CheckOf(checks[i].1) == i) && forall e :: CheckOf(e) < 15 && checks[CheckOf(e)].1 == e
  {
  }

  lemma CheckHolds(rows: seq<Order>, customerIds: seq<Text>, productIds: seq<Text>, batch: BatchId, r: Order, e: OrderError)
    requires BronzeBatch(rows, batch) && r in rows
    ensures var c := ClassifiedRow(rows, customerIds, productIds, r);
      Checks(r, c.rank, c.knownCustomer, c.knownProduct)[CheckOf(e)].0 <==> HasError(rows, customerIds, productIds, r, e)
  {
    FirstIsNewest(rows, batch, r);
  }

  /** A row's error list, exactly: each error if and only if its condition holds, in the order of the
      checks. */
  lemma ErrorsExactly(rows: seq<Order>, customerIds: seq<Text>, productIds: seq<Text>, batch: BatchId, r: Order)
    requires BronzeBatch(rows, batch) && r in rows
    ensures var errors := ClassifiedRow(rows, customerIds, productIds, r).errors;
      InCheckOrder(errors, CheckOf) && forall e :: e in errors <==> HasError(rows, customerIds, productIds, r, e)
  {
    var c := ClassifiedRow(rows, customerIds, productIds, r);
    ChecksAreNumbered(r, c.rank, c.knownCustomer, c.knownProduct);
    ReportedExactly(Checks(r, c.rank, c.knownCustomer, c.knownProduct), CheckOf);
    forall e ensures e in c.errors <==> HasError(rows, customerIds, productIds, r, e) {
      CheckHolds(rows, customerIds, productIds, batch, r, e);
    }
  }

  lemma AcceptableMeans(rows: seq<Order>, customerIds: seq<Text>, productIds: seq<Text>, r: Order)
    ensures Acceptable(rows, customerIds, productIds, r) <==> forall e :: !HasError(rows, customerIds, productIds, r, e)
  {
    if forall e :: !HasError(rows, customerIds, productIds, r, e) {
      assert !HasError(rows, customerIds, productIds, r, MissingOrderId) && !HasError(rows, customerIds, productIds, r, MissingCustomerId) && !HasError(rows, customerIds, productIds, r, MissingProductId)
        && !HasError(rows, customerIds, productIds, r, MissingQuantity) && !HasError(rows, customerIds, productIds, r, NonPositiveQuantity) && !HasError(rows, customerIds, productIds, r, MissingUnitPrice)
        && !HasError(rows, customerIds, productIds, r, NonPositiveUnitPrice) && !HasError(rows, customerIds, productIds, r, MissingTotal) && !HasError(rows, customerIds, productIds, r, NonPositiveTotal)
        && !HasError(rows, customerIds, productIds, r, TotalMismatch) && !HasError(rows, customerIds, productIds, r, MissingEventAt) && !HasError(rows, customerIds, productIds, r, MissingIngestedAt)
        && !HasError(rows, customerIds, productIds, r, UnknownCustomer) && !HasError(rows, customerIds, productIds, r, UnknownProduct) && !HasError(rows, customerIds, productIds, r, DuplicateOrderId);
    }
  }

  /** A row has no quality error exactly when it is acceptable. */
  lemma CleanMeans(rows: seq<Order>, customerIds: seq<Text>, productIds: seq<Text>, batch: BatchId, r: Order)
    requires BronzeBatch(rows, batch) && r in rows
    ensures IsClean(ClassifiedRow(rows, customerIds, productIds, r)) <==> Acceptable(rows, customerIds, productIds, r)
  {
    var errors := ClassifiedRow(rows, customerIds, productIds, r).errors;
    ErrorsExactly(rows, customerIds, productIds, batch, r);
    AcceptableMeans(rows, customerIds, productIds, r);
    assert errors != [] ==> errors[0] in errors;
  }

  lemma CleanRowsDiffer(rows: seq<Order>, customerIds: seq<Text>, productIds: seq<Text>, batch: BatchId, a: Order, b: Order)
    requires BronzeBatch(rows, batch) && a in rows && b in rows && a != b
    requires IsClean(ClassifiedRow(rows, customerIds, productIds, a)) && IsClean(ClassifiedRow(rows, customerIds, productIds, b))
    ensures a.orderId != b.orderId
  {
    NewerOrders(rows, batch);
    CleanMeans(rows, customerIds, productIds, batch, a);
    CleanMeans(rows, customerIds, productIds, batch, b);
    FirstIsNewest(rows, batch, a);
    FirstIsNewest(rows, batch, b);
    if a.orderId == b.orderId {
      FirstIsUnique(rows, SameOrder, Newer, a, b);
    }
  }

  lemma ValidKeysDiffer(rows: seq<Order>, customerIds: seq<Text>, productIds: seq<Text>, batch: BatchId, i: int, j: int)
    requires BronzeBatch(rows, batch) && 0 <= i < j < |rows|
    ensures var classified := Classify(rows, customerIds, productIds);
      |classified| == |rows| && (IsClean(classified[i]) && IsClean(classified[j]) ==> classified[i].row.orderId != classified[j].row.orderId)
  {
    EveryRowIsClassified(rows, customerIds, productIds);
    var classified := Classify(rows, customerIds, productIds);
    if IsClean(classified[i]) && IsClean(classified[j]) {
      CleanRowsDiffer(rows, customerIds, productIds, batch, rows[i], rows[j]);
    }
  }

  lemma ClassifiedIn(rows: seq<Order>, customerIds: seq<Text>, productIds: seq<Text>, batch: BatchId)
    requires BronzeBatch(rows, batch)
    ensures forall c :: c in Classify(rows, customerIds, productIds) ==> c.row.batch == batch
  {
    var classified := Classify(rows, customerIds, productIds);
    RowsAreKept(rows, customerIds, productIds);
    forall c | c in classified ensures c.row.batch == batch {
      var i :| 0 <= i < |classified| && classified[i] == c;
      assert rows[i] in rows;
    }
  }

  lemma ValidHasKeys(rows: seq<Order>, customerIds: seq<Text>, productIds: seq<Text>, batch: BatchId)
    requires BronzeBatch(rows, batch)
    ensures SourceOf(Selected(Classify(rows, customerIds, productIds), IsClean, ToValid), ValidKey, ValidIn(batch))
  {
    var classified := Classify(rows, customerIds, productIds);
    RowsAreKept(rows, customerIds, productIds);
    ClassifiedIn(rows, customerIds, productIds, batch);
    forall i, j | 0 <= i < j < |classified| && IsClean(classified[i]) && IsClean(classified[j])
      ensures ValidKey(ToValid(classified[i])) != ValidKey(ToValid(classified[j]))
    {
      ValidKeysDiffer(rows, customerIds, productIds, batch, i, j);
    }
    SelectedSource(classified, IsClean, ToValid, ValidKey, ValidIn(batch));
  }

  lemma RejectsHaveKeys(rows: seq<Order>, customerIds: seq<Text>, productIds: seq<Text>, batch: BatchId)
    requires BronzeBatch(rows, batch)
    ensures SourceOf(Selected(Classify(rows, customerIds, productIds), IsDirty, ToReject), RejectIdOf, RejectIn(batch))
  {
    RowsAreKept(rows, customerIds, productIds);
    ClassifiedIn(rows, customerIds, productIds, batch);
    SelectedSource(Classify(rows, customerIds, productIds), IsDirty, ToReject, RejectIdOf, RejectIn(batch));
  }

  /** Each order has at most one valid row, and each bronze row at most one reject row. */
  lemma PublicationHasKeys(rows: seq<Order>, customerIds: seq<Text>, productIds: seq<Text>, batch: BatchId, survives: bool)
    requires BronzeBatch(rows, batch)
    ensures var p := Publication(rows, customerIds, productIds, survives);
      SourceOf(p.valid, ValidKey, ValidIn(batch)) && SourceOf(p.rejects, RejectIdOf, RejectIn(batch))
  {
    ValidHasKeys(rows, customerIds, productIds, batch);
    RejectsHaveKeys(rows, customerIds, productIds, batch);
  }

  /** The publication has the same rows for every row order of the same bag. */
  lemma PublicationIgnoresOrder(a: seq<Order>, b: seq<Order>, customerIds: seq<Text>, productIds: seq<Text>, sa: bool, sb: bool)
    requires multiset(a) == multiset(b)
    ensures var p, q := Publication(a, customerIds, productIds, sa), Publication(b, customerIds, productIds, sb);
      (forall v :: v in p.valid <==> v in q.valid) && (forall j :: j in p.rejects <==> j in q.rejects)
  {
    SameClassifiedRows(a, b, customerIds, productIds);
    SameClassifiedRows(b, a, customerIds, productIds);
  }

  lemma SameClassifiedRows(a: seq<Order>, b: seq<Order>, customerIds: seq<Text>, productIds: seq<Text>)
    requires multiset(a) == multiset(b)
    ensures forall c :: c in Classify(a, customerIds, productIds) ==> c in Classify(b, customerIds, productIds)
  {
    var x := Classify(a, customerIds, productIds);
    RowsAreKept(a, customerIds, productIds);
    forall c | c in x ensures c in Classify(b, customerIds, productIds) {
      var i :| 0 <= i < |x| && x[i] == c;
      ClassifiedInBoth(a, b, customerIds, productIds, i);
    }
  }

  lemma ClassifiedInBoth(a: seq<Order>, b: seq<Order>, customerIds: seq<Text>, productIds: seq<Text>, i: nat)
    requires multiset(a) == multiset(b) && i < |a|
    ensures |Classify(a, customerIds, productIds)| == |a|
    ensures Classify(a, customerIds, productIds)[i] in Classify(b, customerIds, productIds)
  {
    EveryRowIsClassified(a, customerIds, productIds);
    SameBagSameRows(a, b);
    assert a[i] in a;
    SameClassifiedRow(a, b, customerIds, productIds, a[i]);
    ClassifiedIsListed(b, customerIds, productIds, a[i]);
  }

  lemma ClassifiedIsListed(rows: seq<Order>, customerIds: seq<Text>, productIds: seq<Text>, r: Order)
    requires r in rows
    ensures ClassifiedRow(rows, customerIds, productIds, r) in Classify(rows, customerIds, productIds)
  {
    EveryRowIsClassified(rows, customerIds, productIds);
    var i :| 0 <= i < |rows| && rows[i] == r;
    assert Classify(rows, customerIds, productIds)[i] in Classify(rows, customerIds, productIds);
  }

  lemma SameClassifiedRow(a: seq<Order>, b: seq<Order>, customerIds: seq<Text>, productIds: seq<Text>, r: Order)
    requires multiset(a) == multiset(b)
    ensures ClassifiedRow(a, customerIds, productIds, r) == ClassifiedRow(b, customerIds, productIds, r)
  {
    RowNumberIgnoresOrder(a, b, SameOrder, Newer, r);
  }

  const THIRTY_DAYS_IN_MICROSECONDS: int := 2_592_000_000_000

  /** The valid order has the columns of its bronze row, and is late when that was placed more than
      thirty days before the batch. */
  predicate Carries(r: Order, v: ValidOrder) {
    && (v.batch, v.batchAt, v.digest) == (r.batch, r.batchAt, r.digest)
    && (v.orderId, v.customerId, v.productId) == (r.orderId, r.customerId, r.productId)
    && (Some(v.quantity), Some(v.unitPrice), Some(v.total)) == (r.quantity, r.unitPrice, r.total)
    && (Some(v.eventAt), Some(v.ingestedAt)) == (r.eventAt, r.ingestedAt)
    && (v.isLate <==> v.batchAt - v.eventAt > THIRTY_DAYS_IN_MICROSECONDS)
  }

  /** A valid row is its bronze row, with a total that adds up. */
  lemma ValidRowMeans(rows: seq<Order>, customerIds: seq<Text>, productIds: seq<Text>, r: Order)
    requires Acceptable(rows, customerIds, productIds, r)
    ensures var v := ToValid(ClassifiedRow(rows, customerIds, productIds, r));
      Carries(r, v) && 0 < v.total == v.quantity * v.unitPrice
    ensures forall v :: Carries(r, v) ==> v == ToValid(ClassifiedRow(rows, customerIds, productIds, r))
  {
    assert r.quantity.value * r.unitPrice.value > 0;
  }

  ghost predicate ValidOf(rows: seq<Order>, customerIds: seq<Text>, productIds: seq<Text>, v: ValidOrder) {
    exists r :: r in rows && Acceptable(rows, customerIds, productIds, r) && Carries(r, v)
  }

  /** A row that is not acceptable, with exactly its errors. */
  ghost predicate RejectOf(rows: seq<Order>, customerIds: seq<Text>, productIds: seq<Text>, j: OrderReject) {
    && j.row in rows && !Acceptable(rows, customerIds, productIds, j.row)
    && InCheckOrder(j.errors, CheckOf) && forall e :: e in j.errors <==> HasError(rows, customerIds, productIds, j.row, e)
  }

  lemma RejectIs(rows: seq<Order>, customerIds: seq<Text>, productIds: seq<Text>, batch: BatchId, j: OrderReject)
    requires BronzeBatch(rows, batch) && j.row in rows
    ensures RejectOf(rows, customerIds, productIds, j) <==>
      !IsClean(ClassifiedRow(rows, customerIds, productIds, j.row)) && j == ToReject(ClassifiedRow(rows, customerIds, productIds, j.row))
  {
    CleanMeans(rows, customerIds, productIds, batch, j.row);
    ErrorsExactly(rows, customerIds, productIds, batch, j.row);
    if RejectOf(rows, customerIds, productIds, j) {
      OneErrorList(j.errors, ClassifiedRow(rows, customerIds, productIds, j.row).errors, CheckOf);
    }
  }

  lemma ClassifiedAre(rows: seq<Order>, customerIds: seq<Text>, productIds: seq<Text>)
    ensures forall c :: c in Classify(rows, customerIds, productIds) <==>
      c.row in rows && c == ClassifiedRow(rows, customerIds, productIds, c.row)
  {
    var classified := Classify(rows, customerIds, productIds);
    EveryRowIsClassified(rows, customerIds, productIds);
    forall c | c in classified ensures c.row in rows && c == ClassifiedRow(rows, customerIds, productIds, c.row) {
      var i :| 0 <= i < |classified| && classified[i] == c;
      assert rows[i] in rows;
    }
    forall c: Classified | c.row in rows && c == ClassifiedRow(rows, customerIds, productIds, c.row) ensures c in classified {
      ClassifiedIsListed(rows, customerIds, productIds, c.row);
    }
  }

  /** A publication has the acceptable rows as valid and the others, with their errors, as rejects. */
  lemma PublicationIs(rows: seq<Order>, customerIds: seq<Text>, productIds: seq<Text>, batch: BatchId, survives: bool)
    requires BronzeBatch(rows, batch)
    ensures var p := Publication(rows, customerIds, productIds, survives);
      && (forall v :: v in p.valid <==> ValidOf(rows, customerIds, productIds, v))
      && (forall j :: j in p.rejects <==> RejectOf(rows, customerIds, productIds, j))
  {
    ClassifiedAre(rows, customerIds, productIds);
    PublishedValid(rows, customerIds, productIds, batch);
    PublishedRejects(rows, customerIds, productIds, batch);
  }

  lemma PublishedValid(rows: seq<Order>, customerIds: seq<Text>, productIds: seq<Text>, batch: BatchId)
    requires BronzeBatch(rows, batch)
    ensures forall v :: v in Selected(Classify(rows, customerIds, productIds), IsClean, ToValid) <==> ValidOf(rows, customerIds, productIds, v)
  {
    var classified := Classify(rows, customerIds, productIds);
    ClassifiedAre(rows, customerIds, productIds);
    forall v | v in Selected(classified, IsClean, ToValid) ensures ValidOf(rows, customerIds, productIds, v) {
      var c :| c in classified && IsClean(c) && v == ToValid(c);
      CleanMeans(rows, customerIds, productIds, batch, c.row);
      ValidRowMeans(rows, customerIds, productIds, c.row);
    }
    forall v | ValidOf(rows, customerIds, productIds, v) ensures v in Selected(classified, IsClean, ToValid) {
      var r :| r in rows && Acceptable(rows, customerIds, productIds, r) && Carries(r, v);
      CleanMeans(rows, customerIds, productIds, batch, r);
      ValidRowMeans(rows, customerIds, productIds, r);
      assert ClassifiedRow(rows, customerIds, productIds, r) in classified;
    }
  }

  lemma PublishedRejects(rows: seq<Order>, customerIds: seq<Text>, productIds: seq<Text>, batch: BatchId)
    requires BronzeBatch(rows, batch)
    ensures forall j :: j in Selected(Classify(rows, customerIds, productIds), IsDirty, ToReject) <==> RejectOf(rows, customerIds, productIds, j)
  {
    var classified := Classify(rows, customerIds, productIds);
    ClassifiedAre(rows, customerIds, productIds);
    forall j | j in Selected(classified, IsDirty, ToReject) ensures RejectOf(rows, customerIds, productIds, j) {
      var c :| c in classified && IsDirty(c) && j == ToReject(c);
      RejectIs(rows, customerIds, productIds, batch, j);
    }
    forall j | RejectOf(rows, customerIds, productIds, j) ensures j in Selected(classified, IsDirty, ToReject) {
      RejectIs(rows, customerIds, productIds, batch, j);
      assert ClassifiedRow(rows, customerIds, productIds, j.row) in classified;
    }
  }

  /** Silver is a replay-safe partition: over any runs that read the same bronze batch in any
      orders, some dying between the two MERGEs, once one run survives the batch's valid rows are
      the acceptable bronze rows and its rejects are the others, they add up to bronze, every order
      has at most one valid row, and other batches are untouched. */
  lemma OrdersReplaySafely(t: Tables<ValidOrder, OrderReject>, batch: BatchId, bronze: seq<Order>, customerIds: seq<Text>, productIds: seq<Text>,
    orders: seq<seq<Order>>, survives: seq<bool>)
    requires BronzeBatch(bronze, batch) && |orders| == |survives| && true in survives
    requires forall i :: 0 <= i < |orders| ==> multiset(orders[i]) == multiset(bronze)
    requires (forall v :: v in t.valid ==> v.batch != batch) && (forall j :: j in t.rejects ==> j.row.batch != batch)
    ensures var attempts := seq(|orders|, i requires 0 <= i < |orders| => Publication(orders[i], customerIds, productIds, survives[i]));
      var after := RunAttempts(t, attempts, ValidKey, RejectIdOf);
      var valid, rejects := Part(after.valid, ValidIn(batch)), Part(after.rejects, RejectIn(batch));
      && (forall v :: v in valid <==> ValidOf(bronze, customerIds, productIds, v))
      && (forall j :: j in rejects <==> RejectOf(bronze, customerIds, productIds, j))
      && |valid| + |rejects| == |bronze|
      && DistinctKeys(valid, ValidKey)
      && Others(after.valid, ValidIn(batch)) == t.valid && Others(after.rejects, RejectIn(batch)) == t.rejects
  {
    var attempts := seq(|orders|, i requires 0 <= i < |orders| => Publication(orders[i], customerIds, productIds, survives[i]));
    var reference := Publication(bronze, customerIds, productIds, true);
    PublicationHasKeys(bronze, customerIds, productIds, batch, true);
    PublicationIs(bronze, customerIds, productIds, batch, true);
    SplitIsComplete(bronze, customerIds, productIds, true);
    forall a | a in attempts
      ensures PublishesAs(a, reference, ValidKey, RejectIdOf, ValidIn(batch), RejectIn(batch))
    {
      var i :| 0 <= i < |attempts| && attempts[i] == a;
      BronzeBatchIgnoresOrder(bronze, orders[i], batch);
      PublicationHasKeys(orders[i], customerIds, productIds, batch, survives[i]);
      PublicationIgnoresOrder(bronze, orders[i], customerIds, productIds, true, survives[i]);
    }
    var k :| 0 <= k < |survives| && survives[k];
    assert attempts[k] in attempts && attempts[k].survives;
    SameRowsPublish(t, attempts, reference, ValidKey, RejectIdOf, ValidIn(batch), RejectIn(batch));
  }

  /** The tables have nothing of the batch. */
  ghost predicate Untouched(batch: BatchId, valid: seq<ValidOrder>, rejects: seq<OrderReject>) {
    (forall v :: v in valid ==> v.batch != batch) && (forall j :: j in rejects ==> j.row.batch != batch)
  }

  /** The tables have of the batch exactly the acceptable orders and the rejects. */
  ghost predicate Published(batch: BatchId, bronze: seq<Order>, customerIds: seq<Text>, productIds: seq<Text>, valid: seq<ValidOrder>, rejects: seq<OrderReject>) {
    && (forall v :: v in Part(valid, ValidIn(batch)) <==> ValidOf(bronze, customerIds, productIds, v))
    && (forall j :: j in Part(rejects, RejectIn(batch)) <==> RejectOf(bronze, customerIds, productIds, j))
    && DistinctKeys(Part(valid, ValidIn(batch)), ValidKey) && |Part(valid, ValidIn(batch))| + |Part(rejects, RejectIn(batch))| == |bronze|
  }

  lemma FirstRunPublishes(t: Tables<ValidOrder, OrderReject>, batch: BatchId, bronze: seq<Order>, customerIds: seq<Text>, productIds: seq<Text>)
    requires BronzeBatch(bronze, batch) && Untouched(batch, t.valid, t.rejects)
    ensures var p := Publication(bronze, customerIds, productIds, true);
      var after := RunAttempts(t, [p], ValidKey, RejectIdOf);
      && Published(batch, bronze, customerIds, productIds, after.valid, after.rejects)
      && |Part(after.valid, ValidIn(batch))| == |p.valid| && |Part(after.rejects, RejectIn(batch))| == |p.rejects|
      && Others(after.valid, ValidIn(batch)) == t.valid && Others(after.rejects, RejectIn(batch)) == t.rejects
  {
    var p := Publication(bronze, customerIds, productIds, true);
    PublicationHasKeys(bronze, customerIds, productIds, batch, true);
    PublicationIs(bronze, customerIds, productIds, batch, true);
    SplitIsComplete(bronze, customerIds, productIds, true);
    SameRowsPublish(t, [p], p, ValidKey, RejectIdOf, ValidIn(batch), RejectIn(batch));
  }

  lemma BronzeBatchIgnoresOrder(a: seq<Order>, b: seq<Order>, batch: BatchId)
    requires BronzeBatch(a, batch) && multiset(a) == multiset(b)
    ensures BronzeBatch(b, batch)
  {
    SameBagSameRows(a, b);
    DistinctKeysOfBag(a, b, BronzeIdOf);
  }
}
