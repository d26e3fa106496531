/** The payment silver job: a payment identifier that occurs twice is rejected in every copy. */
module SilverPayments {
  import opened Types
  import opened Frames
  import opened MergeStatement
  import opened SilverJob

  datatype Status = NullStatus | BlankStatus | Captured | Pending | Declined | Failed | Cancelled | Refunded | OtherStatus(code: nat)

  datatype Payment = Payment(
    batch: BatchId, batchAt: Instant, digest: Digest, occurrence: nat,
    paymentId: Text, orderId: Text, amount: Option<int>, status: Status, paidAt: Option<Instant>)

  datatype PaymentError =
    | MissingPaymentId | MissingOrderId | MissingAmount | NonPositiveAmount
    | MissingStatus | UnknownStatus | MissingPaidAt | DuplicatePaymentId

  datatype Classified = Classified(row: Payment, copies: nat, errors: seq<PaymentError>)
  datatype ValidPayment = ValidPayment(batch: BatchId, batchAt: Instant, digest: Digest, paymentId: Text, orderId: Text, amount: int, status: Status, paidAt: Instant)
  datatype PaymentReject = PaymentReject(row: Payment, errors: seq<PaymentError>)

  /** count(1) over the partition of the payment identifier; null is a partition like any other. */
  function Copies(rows: seq<Payment>, id: Text): nat {
    |Filter(rows, (q: Payment) => q.paymentId == id)|
  }

  /** The checks of one row, in the order of the job. */
  function Checks(r: Payment, copies: nat): seq<(bool, PaymentError)> {
    [
      (!r.paymentId.Word?, MissingPaymentId),
      (!r.orderId.Word?, MissingOrderId),
      (r.amount == None, MissingAmount),
      (r.amount != None && r.amount.value <= 0, NonPositiveAmount),
      (r.status.NullStatus? || r.status.BlankStatus?, MissingStatus),
      (r.status.OtherStatus?, UnknownStatus),
      (r.paidAt == None, MissingPaidAt),
      (copies > 1, DuplicatePaymentId)
    ]
  }

  function QualityErrors(r: Payment, copies: nat): seq<PaymentError> {
    Reported(Checks(r, copies))
  }

  function ClassifyRow(rows: seq<Payment>, r: Payment): Classified {
    Classified(r, Copies(rows, r.paymentId), QualityErrors(r, Copies(rows, r.paymentId)))
  }

  function Classify(rows: seq<Payment>): seq<Classified> {
    Map(rows, (r: Payment) => ClassifyRow(rows, r))
  }

  predicate IsClean(c: Classified) {
    c.errors == []
  }

  predicate IsDirty(c: Classified) {
    c.errors != []
  }

  /** The selected columns; the job only selects them from clean rows, which have them all. */
  function ToValid(c: Classified): ValidPayment {
    var r := c.row;
    ValidPayment(r.batch, r.batchAt, r.digest, r.paymentId, r.orderId,
      if r.amount != None then r.amount.value else 0, r.status, if r.paidAt != None then r.paidAt.value else 0)
  }

  function ToReject(c: Classified): PaymentReject {
    PaymentReject(c.row, c.errors)
  }

  function ValidKey(v: ValidPayment): (BatchId, Text) {
    (v.batch, v.paymentId)
  }

  function RejectIdOf(j: PaymentReject): RejectKey {
    RejectKey(j.row.batch, j.row.digest, j.row.occurrence)
  }

  function ValidIn(batch: BatchId): ValidPayment -> bool {
    (v: ValidPayment) => v.batch == batch
  }

  function RejectIn(batch: BatchId): PaymentReject -> bool {
    (j: PaymentReject) => j.row.batch == batch
  }

  function Publication(rows: seq<Payment>, survives: bool): Attempt<ValidPayment, PaymentReject> {
    Attempt(Selected(Classify(rows), IsClean, ToValid), Selected(Classify(rows), IsDirty, ToReject), survives)
  }

  function BronzeIdOf(r: Payment): (Digest, nat) { (r.digest, r.occurrence) }

  ghost predicate BronzeBatch(rows: seq<Payment>, batch: BatchId) {
    && (forall i, j :: 0 <= i < j < |rows| ==> rows[i].digest != rows[j].digest || rows[i].occurrence != rows[j].occurrence)
    && (forall r :: r in rows ==> r.batch == batch)
  }

  lemma {:induction false} TwoCopiesCount(rows: seq<Payment>, i: int, j: int)
    requires 0 <= i < j < |rows| && rows[i].paymentId == rows[j].paymentId
    ensures Copies(rows, rows[i].paymentId) >= 2
  {
    var keep := (q: Payment) => q.paymentId == rows[i].paymentId;
    var head, tail := rows[..j], rows[j..];
    assert rows == head + tail;
    FilterConcat(head, tail, keep);
    assert head[i] in Filter(head, keep) && tail[0] in Filter(tail, keep);
  }

  function CheckOf(error: PaymentError): nat {
    match error
    case MissingPaymentId => 0
    case MissingOrderId => 1
    case MissingAmount => 2
    case NonPositiveAmount => 3
    case MissingStatus => 4
    case UnknownStatus => 5
    case MissingPaidAt => 6
    case DuplicatePaymentId => 7
  }

  /** An error is in the list exactly when its check holds. */
  lemma CheckedErrors(r: Payment, copies: nat)
    ensures InCheckOrder(QualityErrors(r, copies), CheckOf)
    ensures forall e :: CheckOf(e) < |Checks(r, copies)| && (e in QualityErrors(r, copies) <==> Checks(r, copies)[CheckOf(e)].0)
  {
    var checks := Checks(r, copies);
    assert forall i :: 0 <= i < |checks| ==> CheckOf(checks[i].1) == i;
    assert forall e :: CheckOf(e) < |checks| && checks[CheckOf(e)].1 == e;
    ReportedExactly(checks, CheckOf);
  }

  /** All copies of a duplicated identifier are rejected, and only then for that reason. */
  lemma DuplicatesAllRejected(rows: seq<Payment>, i: int, j: int)
    requires 0 <= i < j < |rows|
    ensures rows[i].paymentId == rows[j].paymentId ==>
      DuplicatePaymentId in Classify(rows)[i].errors && DuplicatePaymentId in Classify(rows)[j].errors
    ensures IsClean(Classify(rows)[i]) && IsClean(Classify(rows)[j]) ==> rows[i].paymentId != rows[j].paymentId
  {
    CheckedErrors(rows[i], Copies(rows, rows[i].paymentId));
    CheckedErrors(rows[j], Copies(rows, rows[j].paymentId));
    if rows[i].paymentId == rows[j].paymentId {
      TwoCopiesCount(rows, i, j);
    }
  }

  lemma RowsAreKept(rows: seq<Payment>, batch: BatchId)
    requires BronzeBatch(rows, batch)
    ensures |Classify(rows)| == |rows| && forall i :: 0 <= i < |rows| ==> Classify(rows)[i].row == rows[i]
    ensures forall c :: c in Classify(rows) ==> c.row.batch == batch
  {
  }

  lemma ValidHasKeys(rows: seq<Payment>, batch: BatchId)
    requires BronzeBatch(rows, batch)
    ensures SourceOf(Selected(Classify(rows), IsClean, ToValid), ValidKey, ValidIn(batch))
  {
    RowsAreKept(rows, batch);
    var classified := Classify(rows);
    forall i, j | 0 <= i < j < |classified| && IsClean(classified[i]) && IsClean(classified[j])
      ensures ValidKey(ToValid(classified[i])) != ValidKey(ToValid(classified[j]))
    {
      DuplicatesAllRejected(rows, i, j);
    }
    SelectedSource(classified, IsClean, ToValid, ValidKey, ValidIn(batch));
  }

  lemma RejectsHaveKeys(rows: seq<Payment>, batch: BatchId)
    requires BronzeBatch(rows, batch)
    ensures SourceOf(Selected(Classify(rows), IsDirty, ToReject), RejectIdOf, RejectIn(batch))
  {
    RowsAreKept(rows, batch);
    SelectedSource(Classify(rows), IsDirty, ToReject, RejectIdOf, RejectIn(batch));
  }

  /** Each identifier has at most one valid row, each bronze row at most one reject row, and the
      two add up to bronze. */
  lemma PublicationHasKeys(rows: seq<Payment>, batch: BatchId, survives: bool)
    requires BronzeBatch(rows, batch)
    ensures var p := Publication(rows, survives);
      && SourceOf(p.valid, ValidKey, ValidIn(batch)) && SourceOf(p.rejects, RejectIdOf, RejectIn(batch))
      && |p.valid| + |p.rejects| == |rows|
  {
    ValidHasKeys(rows, batch);
    RejectsHaveKeys(rows, batch);
    SelectionsSplit(Classify(rows), IsClean, IsDirty, ToValid, ToReject);
  }

  lemma SameClassifiedRows(a: seq<Payment>, b: seq<Payment>)
    requires multiset(a) == multiset(b)
    ensures forall c :: c in Classify(a) ==> c in Classify(b)
  {
    SameBagSameRows(a, b);
    forall c | c in Classify(a) ensures c in Classify(b) {
      var i :| 0 <= i < |a| && Classify(a)[i] == c;
      assert a[i] in b;
      var j :| 0 <= j < |b| && b[j] == a[i];
      FilterOfBag(a, b, (q: Payment) => q.paymentId == a[i].paymentId);
      assert Classify(b)[j] == c;
    }
  }

  /** No other row of the batch has r's identifier. */
  ghost predicate OnlyCopy(rows: seq<Payment>, r: Payment) {
    forall q :: q in rows && q.paymentId == r.paymentId ==> q == r
  }

  lemma TwoDiffer(copies: seq<Payment>)
    requires NoDuplicates(copies) && |copies| > 1
    ensures exists p, q :: p in copies && q in copies && p != q
  {
    assert copies[0] in copies && copies[1] in copies;
  }

  lemma OnlyCopyExactly(rows: seq<Payment>, batch: BatchId, r: Payment)
    requires BronzeBatch(rows, batch) && r in rows
    ensures Copies(rows, r.paymentId) <= 1 <==> OnlyCopy(rows, r)
  {
    var keep := (q: Payment) => q.paymentId == r.paymentId;
    var copies := Filter(rows, keep);
    FilterKeepsNoDuplicates(rows, keep);
    assert r in copies;
    if Copies(rows, r.paymentId) <= 1 {
      forall q | q in rows && q.paymentId == r.paymentId ensures q == r {
        assert q in copies;
      }
    }
    if |copies| > 1 {
      TwoDiffer(copies);
    }
  }

  /** What each error says of the row. */
  ghost predicate HasError(rows: seq<Payment>, r: Payment, error: PaymentError) {
    match error
    case MissingPaymentId => r.paymentId == Null || r.paymentId.Blank?
    case MissingOrderId => r.orderId == Null || r.orderId.Blank?
    case MissingAmount => r.amount == None
    case NonPositiveAmount => r.amount != None && r.amount.value <= 0
    case MissingStatus => r.status == NullStatus || r.status == BlankStatus
    case UnknownStatus => r.status !in {NullStatus, BlankStatus, Captured, Pending, Declined, Failed, Cancelled, Refunded}
    case MissingPaidAt => r.paidAt == None
    case DuplicatePaymentId => !OnlyCopy(rows, r)
  }

  /** A row's error list, exactly: each error if and only if its condition holds, in the order of the
      checks. */
  lemma ErrorsExactly(rows: seq<Payment>, batch: BatchId, r: Payment)
    requires BronzeBatch(rows, batch) && r in rows
    ensures var errors := ClassifyRow(rows, r).errors;
      InCheckOrder(errors, CheckOf) && forall e :: e in errors <==> HasError(rows, r, e)
  {
    CheckedErrors(r, Copies(rows, r.paymentId));
    OnlyCopyExactly(rows, batch, r);
    forall e ensures Checks(r, Copies(rows, r.paymentId))[CheckOf(e)].0 <==> HasError(rows, r, e) {
    }
  }

  /** Complete, positive, of a known status, and the only copy of its identifier. */
  ghost predicate Acceptable(rows: seq<Payment>, r: Payment) {
    && r.paymentId.Word? && r.orderId.Word? && r.amount != None && r.amount.value > 0
    && r.status in {Captured, Pending, Declined, Failed, Cancelled, Refunded} && r.paidAt != None
    && OnlyCopy(rows, r)
  }

  lemma AcceptableMeans(rows: seq<Payment>, r: Payment)
    ensures Acceptable(rows, r) <==> forall e :: !HasError(rows, r, e)
  {
    if forall e :: !HasError(rows, r, e) {
      assert !HasError(rows, r, MissingPaymentId) && !HasError(rows, r, MissingOrderId) && !HasError(rows, r, MissingAmount) && !HasError(rows, r, NonPositiveAmount)
        && !HasError(rows, r, MissingStatus) && !HasError(rows, r, UnknownStatus) && !HasError(rows, r, MissingPaidAt) && !HasError(rows, r, DuplicatePaymentId);
    }
  }

  /** A row has no quality error exactly when it is acceptable. */
  lemma CleanMeans(rows: seq<Payment>, batch: BatchId, r: Payment)
    requires BronzeBatch(rows, batch) && r in rows
    ensures IsClean(ClassifyRow(rows, r)) <==> Acceptable(rows, r)
  {
    var errors := ClassifyRow(rows, r).errors;
    ErrorsExactly(rows, batch, r);
    AcceptableMeans(rows, r);
    assert errors != [] ==> errors[0] in errors;
  }

  /** The valid payment has the columns of its bronze row. */
  predicate Carries(r: Payment, v: ValidPayment) {
    && (v.batch, v.batchAt, v.digest) == (r.batch, r.batchAt, r.digest)
    && (v.paymentId, v.orderId, v.status) == (r.paymentId, r.orderId, r.status)
    && (Some(v.amount), Some(v.paidAt)) == (r.amount, r.paidAt)
  }

  /** A valid row is its bronze row. */
  lemma ValidRowMeans(rows: seq<Payment>, r: Payment)
    requires Acceptable(rows, r)
    ensures var v := ToValid(ClassifyRow(rows, r)); Carries(r, v) && v.amount > 0
    ensures forall v :: Carries(r, v) ==> v == ToValid(ClassifyRow(rows, r))
  {
  }

  ghost predicate ValidOf(rows: seq<Payment>, v: ValidPayment) {
    exists r :: r in rows && Acceptable(rows, r) && Carries(r, v)
  }

  /** A row that is not acceptable, with exactly its errors. */
  ghost predicate RejectOf(rows: seq<Payment>, j: PaymentReject) {
    && j.row in rows && !Acceptable(rows, j.row)
    && InCheckOrder(j.errors, CheckOf) && forall e :: e in j.errors <==> HasError(rows, j.row, e)
  }

  lemma RejectIs(rows: seq<Payment>, batch: BatchId, j: PaymentReject)
    requires BronzeBatch(rows, batch) && j.row in rows
    ensures RejectOf(rows, j) <==> !IsClean(ClassifyRow(rows, j.row)) && j == ToReject(ClassifyRow(rows, j.row))
  {
    CleanMeans(rows, batch, j.row);
    ErrorsExactly(rows, batch, j.row);
    if RejectOf(rows, j) {
      OneErrorList(j.errors, ClassifyRow(rows, j.row).errors, CheckOf);
    }
  }

  lemma ClassifiedAre(rows: seq<Payment>)
    ensures forall c :: c in Classify(rows) <==> c.row in rows && c == ClassifyRow(rows, c.row)
  {
    var classified := Classify(rows);
    forall c | c in classified ensures c.row in rows && c == ClassifyRow(rows, c.row) {
      var i :| 0 <= i < |classified| && classified[i] == c;
      assert rows[i] in rows;
    }
    forall c: Classified | c.row in rows && c == ClassifyRow(rows, c.row) ensures c in classified {
      var i :| 0 <= i < |rows| && rows[i] == c.row;
      assert classified[i] in classified;
    }
  }

  /** A publication has the acceptable rows as valid and the others, with their errors, as rejects. */
  lemma PublicationIs(rows: seq<Payment>, batch: BatchId, survives: bool)
    requires BronzeBatch(rows, batch)
    ensures var p := Publication(rows, survives);
      (forall v :: v in p.valid <==> ValidOf(rows, v)) && (forall j :: j in p.rejects <==> RejectOf(rows, j))
  {
    PublishedValid(rows, batch);
    PublishedRejects(rows, batch);
  }

  lemma PublishedValid(rows: seq<Payment>, batch: BatchId)
    requires BronzeBatch(rows, batch)
    ensures forall v :: v in Selected(Classify(rows), IsClean, ToValid) <==> ValidOf(rows, v)
  {
    var classified := Classify(rows);
    ClassifiedAre(rows);
    forall v | v in Selected(classified, IsClean, ToValid) ensures ValidOf(rows, v) {
      var c :| c in classified && IsClean(c) && v == ToValid(c);
      CleanMeans(rows, batch, c.row);
      ValidRowMeans(rows, c.row);
    }
    forall v | ValidOf(rows, v) ensures v in Selected(classified, IsClean, ToValid) {
      var r :| r in rows && Acceptable(rows, r) && Carries(r, v);
      CleanMeans(rows, batch, r);
      ValidRowMeans(rows, r);
      assert ClassifyRow(rows, r) in classified;
    }
  }

  lemma PublishedRejects(rows: seq<Payment>, batch: BatchId)
    requires BronzeBatch(rows, batch)
    ensures forall j :: j in Selected(Classify(rows), IsDirty, ToReject) <==> RejectOf(rows, j)
  {
    var classified := Classify(rows);
    ClassifiedAre(rows);
    forall j | j in Selected(classified, IsDirty, ToReject) ensures RejectOf(rows, j) {
      var c :| c in classified && IsDirty(c) && j == ToReject(c);
      RejectIs(rows, batch, j);
    }
    forall j | RejectOf(rows, j) ensures j in Selected(classified, IsDirty, ToReject) {
      RejectIs(rows, batch, j);
      assert ClassifyRow(rows, j.row) in classified;
    }
  }

  /** The same replay safety as for orders; here every copy of a duplicated identifier is a reject. */
  lemma PaymentsReplaySafely(t: Tables<ValidPayment, PaymentReject>, batch: BatchId, bronze: seq<Payment>,
    orders: seq<seq<Payment>>, survives: seq<bool>)
    requires BronzeBatch(bronze, batch) && |orders| == |survives| && true in survives
    requires forall i :: 0 <= i < |orders| ==> multiset(orders[i]) == multiset(bronze)
    requires (forall v :: v in t.valid ==> v.batch != batch) && (forall j :: j in t.rejects ==> j.row.batch != batch)
    ensures var attempts := seq(|orders|, i requires 0 <= i < |orders| => Publication(orders[i], survives[i]));
      var after := RunAttempts(t, attempts, ValidKey, RejectIdOf);
      var valid, rejects := Part(after.valid, ValidIn(batch)), Part(after.rejects, RejectIn(batch));
      && (forall v :: v in valid <==> ValidOf(bronze, v)) && (forall j :: j in rejects <==> RejectOf(bronze, j))
      && |valid| + |rejects| == |bronze|
      && DistinctKeys(valid, ValidKey)
      && Others(after.valid, ValidIn(batch)) == t.valid && Others(after.rejects, RejectIn(batch)) == t.rejects
  {
    var attempts := seq(|orders|, i requires 0 <= i < |orders| => Publication(orders[i], survives[i]));
    var reference := Publication(bronze, true);
    PublicationHasKeys(bronze, batch, true);
    PublicationIs(bronze, batch, true);
    forall a | a in attempts
      ensures PublishesAs(a, reference, ValidKey, RejectIdOf, ValidIn(batch), RejectIn(batch))
    {
      var i :| 0 <= i < |attempts| && attempts[i] == a;
      BronzeBatchIgnoresOrder(bronze, orders[i], batch);
      PublicationHasKeys(orders[i], batch, survives[i]);
      SameClassifiedRows(bronze, orders[i]);
      SameClassifiedRows(orders[i], bronze);
    }
    var k :| 0 <= k < |survives| && survives[k];
    assert attempts[k] in attempts && attempts[k].survives;
    SameRowsPublish(t, attempts, reference, ValidKey, RejectIdOf, ValidIn(batch), RejectIn(batch));
  }

  lemma BronzeBatchIgnoresOrder(a: seq<Payment>, b: seq<Payment>, batch: BatchId)
    requires BronzeBatch(a, batch) && multiset(a) == multiset(b)
    ensures BronzeBatch(b, batch)
  {
    SameBagSameRows(a, b);
    DistinctKeysOfBag(a, b, BronzeIdOf);
  }
}
