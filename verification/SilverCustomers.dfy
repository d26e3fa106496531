/** The customer silver job, whose valid rows are what the customer history observes. */
module SilverCustomers {
  import opened Types
  import opened Frames
  import opened MergeStatement
  import opened SilverJob
  import opened HistorySpec
  import opened HistoryJob

  datatype Customer = Customer(
    batch: BatchId, batchAt: Instant, digest: Digest, occurrence: nat,
    customerId: Text, fullName: Text, email: Text, emailIsWellFormed: bool, registeredAt: Option<Instant>)

  datatype CustomerError = MissingCustomerId | MissingFullName | MissingRegisteredAt | InvalidEmail | DuplicateCustomerId
  datatype Classified = Classified(row: Customer, rank: nat, errors: seq<CustomerError>)

  predicate SameCustomer(a: Customer, b: Customer) {
    a.customerId == b.customerId
  }

  /** Hash descending, then occurrence ascending. */
  predicate Preferred(a: Customer, b: Customer) {
    if a.digest != b.digest then a.digest > b.digest else a.occurrence < b.occurrence
  }

  function Rank(rows: seq<Customer>, r: Customer): nat {
    RowNumber(rows, SameCustomer, Preferred, r)
  }

  /** The checks of one row, in the order of the job. */
  function Checks(r: Customer, rank: nat): seq<(bool, CustomerError)> {
    [
      (!r.customerId.Word?, MissingCustomerId),
      (!r.fullName.Word?, MissingFullName),
      (r.registeredAt == None, MissingRegisteredAt),
      (r.email != Null && !(r.email.Word? && r.emailIsWellFormed), InvalidEmail),
      (rank > 1, DuplicateCustomerId)
    ]
  }

  function QualityErrors(r: Customer, rank: nat): seq<CustomerError> {
    Reported(Checks(r, rank))
  }

  function CheckOf(error: CustomerError): nat {
    match error
    case MissingCustomerId => 0
    case MissingFullName => 1
    case MissingRegisteredAt => 2
    case InvalidEmail => 3
    case DuplicateCustomerId => 4
  }

  /** An error is in the list exactly when its check holds. */
  lemma CheckedErrors(r: Customer, rank: nat)
    ensures InCheckOrder(QualityErrors(r, rank), CheckOf)
    ensures forall e :: CheckOf(e) < |Checks(r, rank)| && (e in QualityErrors(r, rank) <==> Checks(r, rank)[CheckOf(e)].0)
  {
    var checks := Checks(r, rank);
    assert forall i :: 0 <= i < |checks| ==> CheckOf(checks[i].1) == i;
    assert forall e :: CheckOf(e) < |checks| && checks[CheckOf(e)].1 == e;
    ReportedExactly(checks, CheckOf);
  }

  function ClassifyRow(rows: seq<Customer>, r: Customer): Classified {
    Classified(r, Rank(rows, r), QualityErrors(r, Rank(rows, r)))
  }

  function Classify(rows: seq<Customer>): seq<Classified> {
    Map(rows, (r: Customer) => ClassifyRow(rows, r))
  }

  predicate IsClean(c: Classified) {
    c.errors == []
  }

  predicate IsDirty(c: Classified) {
    c.errors != []
  }

  function CodeOf(t: Text): Option<nat> {
    if t.Word? then Some(t.code) else None
  }

  /** The selected columns, as the row that the history job reads. */
  function ToSilver(c: Classified): SilverRow {
    var r := c.row;
    SilverRow(r.batch, r.batchAt, if r.customerId.Word? then r.customerId.code else 0,
      Attributes(CodeOf(r.fullName), CodeOf(r.email), r.email == Null, r.registeredAt))
  }

  function SilverKey(s: SilverRow): (BatchId, CustomerId) {
    (s.batch, s.customer)
  }

  function SilverIn(batch: BatchId): SilverRow -> bool {
    (s: SilverRow) => s.batch == batch
  }

  /** The valid rows of a bronze batch. */
  function ValidRows(rows: seq<Customer>): seq<SilverRow> {
    Selected(Classify(rows), IsClean, ToSilver)
  }

  function BronzeIdOf(r: Customer): (Digest, nat) { (r.digest, r.occurrence) }

  /** Bronze rows of one batch: one effective time, no two rows with the same hash and occurrence. */
  ghost predicate BronzeBatch(rows: seq<Customer>, batch: BatchId, at: Instant) {
    && (forall i, j :: 0 <= i < j < |rows| ==> rows[i].digest != rows[j].digest || rows[i].occurrence != rows[j].occurrence)
    && (forall r :: r in rows ==> r.batch == batch && r.batchAt == at)
  }

  lemma PreferredOrders(rows: seq<Customer>, batch: BatchId, at: Instant)
    requires BronzeBatch(rows, batch, at)
    ensures Ordered(rows, SameCustomer, Preferred)
  {
  }

  lemma CleanIs(rows: seq<Customer>, r: Customer)
    ensures IsClean(ClassifyRow(rows, r)) <==>
      && r.customerId.Word? && r.fullName.Word? && r.registeredAt != None
      && (r.email == Null || (r.email.Word? && r.emailIsWellFormed)) && Rank(rows, r) == 1
  {
    var errors := ClassifyRow(rows, r).errors;
    CheckedErrors(r, Rank(rows, r));
    assert errors != [] ==> errors[0] in errors;
    assert errors == [] ==> MissingCustomerId !in errors && MissingFullName !in errors && MissingRegisteredAt !in errors;
    assert errors == [] ==> InvalidEmail !in errors && DuplicateCustomerId !in errors;
  }

  lemma ValidKeysDiffer(rows: seq<Customer>, batch: BatchId, at: Instant, i: int, j: int)
    requires BronzeBatch(rows, batch, at) && 0 <= i < j < |rows|
    ensures IsClean(Classify(rows)[i]) && IsClean(Classify(rows)[j]) ==> rows[i].customerId != rows[j].customerId
  {
    PreferredOrders(rows, batch, at);
    CleanIs(rows, rows[i]);
    CleanIs(rows, rows[j]);
    if rows[i].customerId == rows[j].customerId && Rank(rows, rows[i]) == 1 && Rank(rows, rows[j]) == 1 {
      FirstIsUnique(rows, SameCustomer, Preferred, rows[i], rows[j]);
    }
  }

  lemma ValidRowIs(rows: seq<Customer>, batch: BatchId, at: Instant, s: SilverRow)
    requires BronzeBatch(rows, batch, at) && s in ValidRows(rows)
    ensures s.batch == batch && s.at == at && s.attributes.fullName != None && s.attributes.registeredAt != None
  {
    var c :| c in Classify(rows) && IsClean(c) && s == ToSilver(c);
    var i :| 0 <= i < |rows| && Classify(rows)[i] == c;
    CleanIs(rows, rows[i]);
  }

  lemma ValidKeysAreDistinct(rows: seq<Customer>, batch: BatchId, at: Instant)
    requires BronzeBatch(rows, batch, at)
    ensures DistinctKeys(ValidRows(rows), SilverKey)
  {
    var classified := Classify(rows);
    forall i, j | 0 <= i < j < |classified| && IsClean(classified[i]) && IsClean(classified[j])
      ensures SilverKey(ToSilver(classified[i])) != SilverKey(ToSilver(classified[j]))
    {
      ValidKeysDiffer(rows, batch, at, i, j);
      CleanIs(rows, rows[i]);
      CleanIs(rows, rows[j]);
    }
    SelectedKeys(classified, IsClean, ToSilver, SilverKey);
  }

  /** What the history job may rely on: valid rows are of the batch and its time, complete, and
      one a customer, for every bronze content. */
  lemma ValidRowsFeedHistory(rows: seq<Customer>, batch: BatchId, at: Instant)
    requires BronzeBatch(rows, batch, at)
    ensures SourceOf(ValidRows(rows), SilverKey, SilverIn(batch))
    ensures forall s :: s in ValidRows(rows) ==>
      s.batch == batch && s.at == at && s.attributes.fullName != None && s.attributes.registeredAt != None
  {
    ValidKeysAreDistinct(rows, batch, at);
    forall s | s in ValidRows(rows)
      ensures s.batch == batch && s.at == at && s.attributes.fullName != None && s.attributes.registeredAt != None
    {
      ValidRowIs(rows, batch, at, s);
    }
  }

  lemma SameClassifiedRows(a: seq<Customer>, b: seq<Customer>)
    requires multiset(a) == multiset(b)
    ensures forall c :: c in Classify(a) ==> c in Classify(b)
  {
    SameBagSameRows(a, b);
    forall c | c in Classify(a) ensures c in Classify(b) {
      var i :| 0 <= i < |a| && Classify(a)[i] == c;
      assert a[i] in b;
      var j :| 0 <= j < |b| && b[j] == a[i];
      RowNumberIgnoresOrder(a, b, SameCustomer, Preferred, a[i]);
      assert Classify(b)[j] == c;
    }
  }

  // ---------------------------------------------------------------- publication

  datatype CustomerReject = CustomerReject(row: Customer, errors: seq<CustomerError>)

  function ToReject(c: Classified): CustomerReject {
    CustomerReject(c.row, c.errors)
  }

  function RejectIdOf(j: CustomerReject): RejectKey {
    RejectKey(j.row.batch, j.row.digest, j.row.occurrence)
  }

  function RejectIn(batch: BatchId): CustomerReject -> bool {
    (j: CustomerReject) => j.row.batch == batch
  }

  /** What one run publishes, having read the batch in the given order. */
  function Publication(rows: seq<Customer>, survives: bool): Attempt<SilverRow, CustomerReject> {
    Attempt(ValidRows(rows), Selected(Classify(rows), IsDirty, ToReject), survives)
  }

  /** No copy of r's identifier in the batch has a greater hash, or the same hash and a smaller
      occurrence. */
  ghost predicate PreferredCopy(rows: seq<Customer>, r: Customer) {
    forall q :: q in rows && q.customerId == r.customerId ==> q.digest <= r.digest && (q.digest == r.digest ==> r.occurrence <= q.occurrence)
  }

  /** The row ranked first is the preferred copy of its identifier, and the only one. */
  lemma FirstIsPreferred(rows: seq<Customer>, batch: BatchId, at: Instant, r: Customer)
    requires BronzeBatch(rows, batch, at) && r in rows
    ensures Rank(rows, r) == 1 <==> PreferredCopy(rows, r)
  {
    PreferredOrders(rows, batch, at);
    var first := FirstExists(rows, SameCustomer, Preferred, r);
    if Rank(rows, r) == 1 {
      forall q | q in rows && q.customerId == r.customerId ensures !Preferred(q, r) {
        NothingBefore(rows, r, q);
      }
    }
    if PreferredCopy(rows, r) {
      NothingBefore(rows, first, r);
    }
  }

  lemma NothingBefore(rows: seq<Customer>, r: Customer, q: Customer)
    requires Rank(rows, r) == 1 && q in rows && q.customerId == r.customerId
    ensures !Preferred(q, r)
  {
    var earlier := Filter(rows, (x: Customer) => SameCustomer(x, r) && Preferred(x, r));
    assert q in earlier <==> q in rows && SameCustomer(q, r) && Preferred(q, r);
  }

  /** What each error says of the row. */
  ghost predicate HasError(rows: seq<Customer>, r: Customer, error: CustomerError) {
    match error
    case MissingCustomerId => r.customerId == Null || r.customerId.Blank?
    case MissingFullName => r.fullName == Null || r.fullName.Blank?
    case MissingRegisteredAt => r.registeredAt == None
    case InvalidEmail => r.email != Null && (r.email.Blank? || !r.emailIsWellFormed)
    case DuplicateCustomerId => !PreferredCopy(rows, r)
  }

  /** A row's error list, exactly: each error if and only if its condition holds, in the order of the
      checks. */
  lemma ErrorsExactly(rows: seq<Customer>, batch: BatchId, at: Instant, r: Customer)
    requires BronzeBatch(rows, batch, at) && r in rows
    ensures var errors := ClassifyRow(rows, r).errors;
      InCheckOrder(errors, CheckOf) && forall e :: e in errors <==> HasError(rows, r, e)
  {
    CheckedErrors(r, Rank(rows, r));
    FirstIsPreferred(rows, batch, at, r);
    forall e ensures Checks(r, Rank(rows, r))[CheckOf(e)].0 <==> HasError(rows, r, e) {
    }
  }

  /** Complete, with a well-formed email if any, and the preferred copy of its identifier. */
  ghost predicate Acceptable(rows: seq<Customer>, r: Customer) {
    && r.customerId.Word? && r.fullName.Word? && r.registeredAt != None
    && (r.email == Null || (r.email.Word? && r.emailIsWellFormed)) && PreferredCopy(rows, r)
  }

  /** A row has no quality error exactly when it is acceptable. */
  lemma CleanMeans(rows: seq<Customer>, batch: BatchId, at: Instant, r: Customer)
    requires BronzeBatch(rows, batch, at) && r in rows
    ensures IsClean(ClassifyRow(rows, r)) <==> Acceptable(rows, r)
  {
    CleanIs(rows, r);
    FirstIsPreferred(rows, batch, at, r);
  }

  /** The valid customer has the columns of its bronze row; only a null email counts as missing. */
  predicate Carries(r: Customer, v: SilverRow) {
    && v.batch == r.batch && v.at == r.batchAt && Word(v.customer) == r.customerId
    && v.attributes.fullName != None && Word(v.attributes.fullName.value) == r.fullName
    && v.attributes.registeredAt == r.registeredAt
    && (v.attributes.emailIsMissing <==> r.email == Null) && (v.attributes.emailIsMissing <==> v.attributes.email == None)
    && (v.attributes.email != None ==> Word(v.attributes.email.value) == r.email)
  }

  /** A valid row is its bronze row. */
  lemma ValidRowMeans(rows: seq<Customer>, r: Customer)
    requires Acceptable(rows, r)
    ensures Carries(r, ToSilver(ClassifyRow(rows, r)))
    ensures forall v :: Carries(r, v) ==> v == ToSilver(ClassifyRow(rows, r))
  {
  }

  ghost predicate ValidOf(rows: seq<Customer>, v: SilverRow) {
    exists r :: r in rows && Acceptable(rows, r) && Carries(r, v)
  }

  /** A row that is not acceptable, with exactly its errors. */
  ghost predicate RejectOf(rows: seq<Customer>, j: CustomerReject) {
    && j.row in rows && !Acceptable(rows, j.row)
    && InCheckOrder(j.errors, CheckOf) && forall e :: e in j.errors <==> HasError(rows, j.row, e)
  }

  lemma RejectIs(rows: seq<Customer>, batch: BatchId, at: Instant, j: CustomerReject)
    requires BronzeBatch(rows, batch, at) && j.row in rows
    ensures RejectOf(rows, j) <==> !IsClean(ClassifyRow(rows, j.row)) && j == ToReject(ClassifyRow(rows, j.row))
  {
    CleanMeans(rows, batch, at, j.row);
    ErrorsExactly(rows, batch, at, j.row);
    if RejectOf(rows, j) {
      OneErrorList(j.errors, ClassifyRow(rows, j.row).errors, CheckOf);
    }
  }

  lemma ClassifiedAre(rows: seq<Customer>)
    ensures forall c :: c in Classify(rows) <==> c.row in rows && c == ClassifyRow(rows, c.row)
  {
    var classified := Classify(rows);
    forall c | c in classified ensures c.row in rows && c == ClassifyRow(rows, c.row) {
      var i :| 0 <= i < |classified| && classified[i] == c;
      assert rows[i] in rows;
    }
    forall c: Classified | c.row in rows && c == ClassifyRow(rows, c.row) ensures c in classified {
      var i :| 0 <= i < |rows| && rows[i] == c.row;
      assert classified[i] in classified;
    }
  }

  /** A publication has the acceptable rows as valid and the others, with their errors, as rejects. */
  lemma PublicationIs(rows: seq<Customer>, batch: BatchId, at: Instant, survives: bool)
    requires BronzeBatch(rows, batch, at)
    ensures var p := Publication(rows, survives);
      (forall v :: v in p.valid <==> ValidOf(rows, v)) && (forall j :: j in p.rejects <==> RejectOf(rows, j))
  {
    PublishedValid(rows, batch, at);
    PublishedRejects(rows, batch, at);
  }

  lemma PublishedValid(rows: seq<Customer>, batch: BatchId, at: Instant)
    requires BronzeBatch(rows, batch, at)
    ensures forall v :: v in ValidRows(rows) <==> ValidOf(rows, v)
  {
    var classified := Classify(rows);
    ClassifiedAre(rows);
    forall v | v in Selected(classified, IsClean, ToSilver) ensures ValidOf(rows, v) {
      var c :| c in classified && IsClean(c) && v == ToSilver(c);
      CleanMeans(rows, batch, at, c.row);
      ValidRowMeans(rows, c.row);
    }
    forall v | ValidOf(rows, v) ensures v in Selected(classified, IsClean, ToSilver) {
      var r :| r in rows && Acceptable(rows, r) && Carries(r, v);
      CleanMeans(rows, batch, at, r);
      ValidRowMeans(rows, r);
      assert ClassifyRow(rows, r) in classified;
    }
  }

  lemma PublishedRejects(rows: seq<Customer>, batch: BatchId, at: Instant)
    requires BronzeBatch(rows, batch, at)
    ensures forall j :: j in Selected(Classify(rows), IsDirty, ToReject) <==> RejectOf(rows, j)
  {
    var classified := Classify(rows);
    ClassifiedAre(rows);
    forall j | j in Selected(classified, IsDirty, ToReject) ensures RejectOf(rows, j) {
      var c :| c in classified && IsDirty(c) && j == ToReject(c);
      RejectIs(rows, batch, at, j);
    }
    forall j | RejectOf(rows, j) ensures j in Selected(classified, IsDirty, ToReject) {
      RejectIs(rows, batch, at, j);
      assert ClassifyRow(rows, j.row) in classified;
    }
  }

  lemma RowsAreKept(rows: seq<Customer>)
    ensures |Classify(rows)| == |rows| && forall i :: 0 <= i < |rows| ==> Classify(rows)[i].row == rows[i]
  {
  }

  lemma RejectsHaveKeys(rows: seq<Customer>, batch: BatchId, at: Instant)
    requires BronzeBatch(rows, batch, at)
    ensures SourceOf(Selected(Classify(rows), IsDirty, ToReject), RejectIdOf, RejectIn(batch))
  {
    forall c | c in Classify(rows) ensures c.row.batch == batch {
      var i :| 0 <= i < |rows| && Classify(rows)[i] == c;
      assert rows[i] in rows;
    }
    RowsAreKept(rows);
    SelectedSource(Classify(rows), IsDirty, ToReject, RejectIdOf, RejectIn(batch));
  }

  lemma BronzeBatchIgnoresOrder(a: seq<Customer>, b: seq<Customer>, batch: BatchId, at: Instant)
    requires BronzeBatch(a, batch, at) && multiset(a) == multiset(b)
    ensures BronzeBatch(b, batch, at)
  {
    SameBagSameRows(a, b);
    DistinctKeysOfBag(a, b, BronzeIdOf);
  }

  /** The same replay safety as for orders; here the preferred copy of an identifier may be valid. */
  lemma CustomersReplaySafely(t: Tables<SilverRow, CustomerReject>, batch: BatchId, at: Instant, bronze: seq<Customer>,
    orders: seq<seq<Customer>>, survives: seq<bool>)
    requires BronzeBatch(bronze, batch, at) && |orders| == |survives| && true in survives
    requires forall i :: 0 <= i < |orders| ==> multiset(orders[i]) == multiset(bronze)
    requires (forall v :: v in t.valid ==> v.batch != batch) && (forall j :: j in t.rejects ==> j.row.batch != batch)
    ensures var attempts := seq(|orders|, i requires 0 <= i < |orders| => Publication(orders[i], survives[i]));
      var after := RunAttempts(t, attempts, SilverKey, RejectIdOf);
      var valid, rejects := Part(after.valid, SilverIn(batch)), Part(after.rejects, RejectIn(batch));
      && (forall v :: v in valid <==> ValidOf(bronze, v)) && (forall j :: j in rejects <==> RejectOf(bronze, j))
      && |valid| + |rejects| == |bronze|
      && DistinctKeys(valid, SilverKey)
      && Others(after.valid, SilverIn(batch)) == t.valid && Others(after.rejects, RejectIn(batch)) == t.rejects
  {
    var attempts := seq(|orders|, i requires 0 <= i < |orders| => Publication(orders[i], survives[i]));
    var reference := Publication(bronze, true);
    PublicationIs(bronze, batch, at, true);
    ValidRowsFeedHistory(bronze, batch, at);
    RejectsHaveKeys(bronze, batch, at);
    SelectionsSplit(Classify(bronze), IsClean, IsDirty, ToSilver, ToReject);
    forall a | a in attempts
      ensures PublishesAs(a, reference, SilverKey, RejectIdOf, SilverIn(batch), RejectIn(batch))
    {
      var i :| 0 <= i < |attempts| && attempts[i] == a;
      BronzeBatchIgnoresOrder(bronze, orders[i], batch, at);
      ValidRowsFeedHistory(orders[i], batch, at);
      RejectsHaveKeys(orders[i], batch, at);
      SameClassifiedRows(bronze, orders[i]);
      SameClassifiedRows(orders[i], bronze);
    }
    var k :| 0 <= k < |survives| && survives[k];
    assert attempts[k] in attempts && attempts[k].survives;
    SameRowsPublish(t, attempts, reference, SilverKey, RejectIdOf, SilverIn(batch), RejectIn(batch));
  }
}
