/** Over every interleaving of the batch protocol the published tables converge to the batches
    that are checkpointed. */
module BatchConvergence {
  import opened Types
  import opened Frames
  import opened MergeStatement
  import opened BatchProtocol
  import SC = SilverCustomers
  import H = HistorySpec
  import J = HistoryJob
  import T = HistoryTheorems
  import P = BatchPlanner

  // ---------------------------------------------------------------- observations of landings

  lemma OneObservationEach(digestOf: H.Attributes -> Digest, valid: seq<J.SilverRow>, batch: BatchId)
    requires DistinctKeys(valid, SC.SilverKey) && forall r :: r in valid ==> r.batch == batch
    ensures J.DistinctCustomers(J.WithHistoryColumns(digestOf, valid))
  {
  }

  lemma ObservationFacts(digestOf: H.Attributes -> Digest, l: Landing)
    requires SC.BronzeBatch(l.customers, l.batch.id, l.batch.at)
    ensures forall o :: o in ObservationsOf(digestOf, l) ==> o.at == l.batch.at && o.batch == l.batch.id && J.Complete(o)
    ensures forall a, b :: a in ObservationsOf(digestOf, l) && b in ObservationsOf(digestOf, l) && a.customer == b.customer ==> a == b
  {
    var valid := SC.ValidRows(l.customers);
    var source := J.WithHistoryColumns(digestOf, valid);
    SC.ValidRowsFeedHistory(l.customers, l.batch.id, l.batch.at);
    forall i | 0 <= i < |source| ensures source[i].at == l.batch.at && source[i].batch == l.batch.id && J.Complete(source[i]) {
      assert valid[i] in valid;
    }
    OneObservationEach(digestOf, valid, l.batch.id);
  }

  lemma SameLanding(landed: seq<Landing>, k: Landing, l: Landing)
    requires LandedOk(landed) && k in landed && l in landed && k.batch.id == l.batch.id
    ensures k == l
  {
  }

  lemma ListingOf(landed: seq<Landing>)
    ensures forall l :: l in landed ==> l.batch in Listing(landed)
    ensures forall b :: b in Listing(landed) ==> exists l :: l in landed && l.batch == b
  {
  }

  lemma ListingIds(landed: seq<Landing>)
    requires LandedOk(landed)
    ensures P.DistinctIds(Listing(landed))
  {
  }

  lemma KnownGrows(digestOf: H.Attributes -> Digest, landed: seq<Landing>, ids: set<BatchId>, l: Landing)
    requires LandedOk(landed) && l in landed
    ensures Known(digestOf, landed, ids + {l.batch.id}) == Known(digestOf, landed, ids) + ObservationsOf(digestOf, l)
  {
    forall k | k in landed && k.batch.id == l.batch.id ensures k == l {
      SameLanding(landed, k, l);
    }
  }

  lemma KnownIsUnambiguous(digestOf: H.Attributes -> Digest, landed: seq<Landing>, ids: set<BatchId>)
    requires LandedOk(landed) && DistinctSnapshots(landed)
    ensures H.Unambiguous(Known(digestOf, landed, ids))
  {
    forall l | l in landed
      ensures forall o :: o in ObservationsOf(digestOf, l) ==> o.at == l.batch.at
      ensures forall a, b :: a in ObservationsOf(digestOf, l) && b in ObservationsOf(digestOf, l) && a.customer == b.customer ==> a == b
    {
      ObservationFacts(digestOf, l);
    }
  }

  lemma KnownAfterLanding(digestOf: H.Attributes -> Digest, landed: seq<Landing>, l: Landing, ids: set<BatchId>)
    requires l.batch.id !in ids
    ensures Known(digestOf, landed + [l], ids) == Known(digestOf, landed, ids)
  {
  }

  // ---------------------------------------------------------------- what the history stage reads

  /** A silver row of a batch is a valid row of that batch's landing. */
  lemma SilverRowOf(s: State, l: Landing, r: J.SilverRow)
    requires LandedOk(s.landed) && SilverOk(s) && l in s.landed && r in s.silver && r.batch == l.batch.id
    ensures r in SC.ValidRows(l.customers)
  {
    var k :| k in s.landed && r in SC.ValidRows(k.customers);
    SC.ValidRowsFeedHistory(k.customers, k.batch.id, k.batch.at);
    SameLanding(s.landed, k, l);
  }

  ghost predicate ObservedIn(digestOf: H.Attributes -> Digest, rows: seq<J.SilverRow>, o: H.Observation) {
    exists r :: r in rows && o == J.HistoryColumns(digestOf, r)
  }

  lemma RowsOfSource(digestOf: H.Attributes -> Digest, rows: seq<J.SilverRow>)
    ensures forall o :: o in J.WithHistoryColumns(digestOf, rows) <==> ObservedIn(digestOf, rows, o)
  {
  }

  lemma BatchPartIsValid(s: State, l: Landing)
    requires LandedOk(s.landed) && SilverOk(s) && l in s.landed && InSilver(s, l)
    ensures var part := Part(s.silver, SC.SilverIn(l.batch.id));
      DistinctKeys(part, SC.SilverKey) && forall r :: r in part <==> r in SC.ValidRows(l.customers)
  {
    var part, valid := Part(s.silver, SC.SilverIn(l.batch.id)), SC.ValidRows(l.customers);
    SC.ValidRowsFeedHistory(l.customers, l.batch.id, l.batch.at);
    forall r | r in part ensures r in valid {
      SilverRowOf(s, l, r);
    }
    PartKeepsKeys(s.silver, SC.SilverKey, SC.SilverIn(l.batch.id));
  }

  lemma SameSource(digestOf: H.Attributes -> Digest, a: seq<J.SilverRow>, b: seq<J.SilverRow>)
    requires forall r :: r in a <==> r in b
    ensures J.Rows(J.WithHistoryColumns(digestOf, a)) == J.Rows(J.WithHistoryColumns(digestOf, b))
  {
    RowsOfSource(digestOf, a);
    RowsOfSource(digestOf, b);
    forall o ensures ObservedIn(digestOf, a, o) <==> ObservedIn(digestOf, b, o) {
    }
  }

  /** Forward mode reads exactly the batch's observations. */
  lemma BatchSource(digestOf: H.Attributes -> Digest, s: State, l: Landing)
    requires LandedOk(s.landed) && SilverOk(s) && l in s.landed && InSilver(s, l)
    ensures var source := J.WithHistoryColumns(digestOf, Part(s.silver, SC.SilverIn(l.batch.id)));
      J.Rows(source) == ObservationsOf(digestOf, l) && J.SameTime(source) && J.DistinctCustomers(source)
  {
    var part := Part(s.silver, SC.SilverIn(l.batch.id));
    BatchPartIsValid(s, l);
    SameSource(digestOf, part, SC.ValidRows(l.customers));
    SC.ValidRowsFeedHistory(l.customers, l.batch.id, l.batch.at);
    forall i | 0 <= i < |part| ensures part[i].batch == l.batch.id && part[i].at == l.batch.at {
      assert part[i] in part;
    }
    OneObservationEach(digestOf, part, l.batch.id);
  }

  lemma ObservedIsKnown(digestOf: H.Attributes -> Digest, landed: seq<Landing>, ids: set<BatchId>, k: Landing, r: J.SilverRow)
    requires k in landed && k.batch.id in ids && r in SC.ValidRows(k.customers)
    ensures J.HistoryColumns(digestOf, r) in Known(digestOf, landed, ids)
  {
    RowsOfSource(digestOf, SC.ValidRows(k.customers));
    assert ObservedIn(digestOf, SC.ValidRows(k.customers), J.HistoryColumns(digestOf, r));
    assert J.HistoryColumns(digestOf, r) in ObservationsOf(digestOf, k);
  }

  /** The landing that a silver row came from is checkpointed or is the active one. */
  lemma SilverOwner(s: State, l: Landing, r: J.SilverRow) returns (k: Landing)
    requires LandedOk(s.landed) && SilverOk(s) && Holding(s, l.batch) && r in s.silver
    ensures k in s.landed && k.batch.id in s.processed.Keys + {l.batch.id} && r in SC.ValidRows(k.customers)
  {
    k :| k in s.landed && r in SC.ValidRows(k.customers) && (k.batch.id in s.processed || Holding(s, k.batch));
  }

  lemma KnownIsInSilver(digestOf: H.Attributes -> Digest, s: State, l: Landing, o: H.Observation)
    requires LandedOk(s.landed) && SilverOk(s) && l in s.landed && InSilver(s, l)
    requires o in Known(digestOf, s.landed, s.processed.Keys + {l.batch.id})
    ensures ObservedIn(digestOf, s.silver, o)
  {
  }

  /** Rebuild mode reads the observations of the checkpointed batches and of the active one. */
  lemma AllSource(digestOf: H.Attributes -> Digest, s: State, l: Landing)
    requires LandedOk(s.landed) && SilverOk(s)
    requires l in s.landed && Holding(s, l.batch) && InSilver(s, l)
    ensures J.Rows(J.WithHistoryColumns(digestOf, s.silver)) == Known(digestOf, s.landed, s.processed.Keys + {l.batch.id})
  {
    RowsOfSource(digestOf, s.silver);
    forall r | r in s.silver ensures J.HistoryColumns(digestOf, r) in Known(digestOf, s.landed, s.processed.Keys + {l.batch.id}) {
      var k := SilverOwner(s, l, r);
      ObservedIsKnown(digestOf, s.landed, s.processed.Keys + {l.batch.id}, k, r);
    }
    forall o | o in Known(digestOf, s.landed, s.processed.Keys + {l.batch.id}) ensures ObservedIn(digestOf, s.silver, o) {
      KnownIsInSilver(digestOf, s, l, o);
    }
  }

  lemma AllSourcePassesChecks(digestOf: H.Attributes -> Digest, s: State)
    requires LandedOk(s.landed) && SilverOk(s) && DistinctSnapshots(s.landed)
    ensures var source := J.WithHistoryColumns(digestOf, s.silver);
      !J.Ambiguous(source) && !J.RepeatsIdentity(source) && forall o :: o in source ==> J.Complete(o)
  {
    var source := J.WithHistoryColumns(digestOf, s.silver);
    forall r | r in s.silver
      ensures exists l :: l in s.landed && l.batch.id == r.batch && l.batch.at == r.at
      ensures r.attributes.fullName != None && r.attributes.registeredAt != None
    {
      var l :| l in s.landed && r in SC.ValidRows(l.customers);
      SC.ValidRowsFeedHistory(l.customers, l.batch.id, l.batch.at);
    }
    forall i, j | 0 <= i < j < |source|
      ensures !(source[i].customer == source[j].customer && source[i].at == source[j].at)
      ensures !(source[i].customer == source[j].customer && source[i].batch == source[j].batch)
    {
      assert SC.SilverKey(s.silver[i]) != SC.SilverKey(s.silver[j]);
      assert s.silver[i] in s.silver && s.silver[j] in s.silver;
      var k :| k in s.landed && k.batch.id == s.silver[i].batch && k.batch.at == s.silver[i].at;
      var l :| l in s.landed && l.batch.id == s.silver[j].batch && l.batch.at == s.silver[j].at;
    }
    forall o | o in source ensures J.Complete(o) {
      var i :| 0 <= i < |source| && source[i] == o;
      assert s.silver[i] in s.silver;
    }
  }

  // ---------------------------------------------------------------- the history stage

  lemma ProcessedIsEarlier(s: State, l: Landing, k: Landing)
    requires LandedOk(s.landed) && FilesOk(s) && DistinctSnapshots(s.landed)
    requires l in s.landed && k in s.landed && k.batch.id in s.processed && l.batch.id !in s.processed
    requires P.OptionsFor(l.batch, s.processed) == Some(P.Forward)
    ensures k.batch.at < l.batch.at
  {
  }

  ghost predicate StageReady(s: State, l: Landing) {
    && LandedOk(s.landed) && FilesOk(s) && SilverOk(s) && DistinctSnapshots(s.landed)
    && l in s.landed && Holding(s, l.batch) && InSilver(s, l)
  }

  /** Forward mode, first time or retried: the history gains the batch, or the stage reports an
      empty batch and leaves the table alone. */
  lemma ForwardStage(digestOf: H.Attributes -> Digest, s: State, l: Landing)
    requires StageReady(s, l) && P.OptionsFor(l.batch, s.processed) == Some(P.Forward)
    requires HistoryOf(digestOf, s, s.processed.Keys) || HistoryOf(digestOf, s, s.processed.Keys + {l.batch.id})
    ensures var r := J.ApplyHistory(s.history, J.WithHistoryColumns(digestOf, Part(s.silver, SC.SilverIn(l.batch.id))));
      if ObservationsOf(digestOf, l) == {} then r.result.Failure? && r.rows == s.history
      else r.result.Success? && T.Holds(r.rows, Known(digestOf, s.landed, s.processed.Keys + {l.batch.id}))
  {
    var source := J.WithHistoryColumns(digestOf, Part(s.silver, SC.SilverIn(l.batch.id)));
    var before, after := Known(digestOf, s.landed, s.processed.Keys), Known(digestOf, s.landed, s.processed.Keys + {l.batch.id});
    BatchSource(digestOf, s, l);
    KnownGrows(digestOf, s.landed, s.processed.Keys, l);
    KnownIsUnambiguous(digestOf, s.landed, s.processed.Keys);
    KnownIsUnambiguous(digestOf, s.landed, s.processed.Keys + {l.batch.id});
    ObservationFacts(digestOf, l);
    forall o | o in before ensures o.at < l.batch.at {
      var k :| k in s.landed && k.batch.id in s.processed && o in ObservationsOf(digestOf, k);
      ObservationFacts(digestOf, k);
      ProcessedIsEarlier(s, l, k);
    }
    if source == [] {
      assert J.Rows(source) == {};
    } else {
      assert source[0] in J.Rows(source);
      if HistoryOf(digestOf, s, s.processed.Keys) {
        T.ApplySucceeds(s.history, before, source);
      } else {
        forall b, o | b in source && o in after && o.customer == b.customer ensures b in after && o.at <= b.at {
          assert b in J.Rows(source);
        }
        T.ApplyReplays(s.history, after, source);
      }
    }
  }

  /** Rebuild mode, first time or retried. */
  lemma RebuildStage(digestOf: H.Attributes -> Digest, s: State, l: Landing)
    requires StageReady(s, l)
    requires HistoryOf(digestOf, s, s.processed.Keys) || HistoryOf(digestOf, s, s.processed.Keys + {l.batch.id})
    ensures var r := J.RebuildHistory(s.history, J.WithHistoryColumns(digestOf, s.silver));
      if s.silver == [] then r.result.Failure? && r.rows == s.history
      else r.result.Success? && T.Holds(r.rows, Known(digestOf, s.landed, s.processed.Keys + {l.batch.id}))
  {
    var source := J.WithHistoryColumns(digestOf, s.silver);
    var before, after := Known(digestOf, s.landed, s.processed.Keys), Known(digestOf, s.landed, s.processed.Keys + {l.batch.id});
    AllSource(digestOf, s, l);
    AllSourcePassesChecks(digestOf, s);
    T.RebuildExactly(s.history, source);
    KnownGrows(digestOf, s.landed, s.processed.Keys, l);
    if HistoryOf(digestOf, s, s.processed.Keys) {
      T.CoverageNeverRejects(s.history, before, source);
    } else {
      T.CoverageNeverRejects(s.history, after, source);
    }
  }

  // ---------------------------------------------------------------- parts that a step leaves alone

  /** The step touches no landing, checkpoint or table, and no reservation is lost. */
  ghost predicate SameFacts(s: State, s': State) {
    s'.landed == s.landed && s'.processed == s.processed && forall b :: Holding(s, b) ==> Holding(s', b)
  }

  ghost predicate PastKept(s: State, s': State, n: nat) {
    forall b :: Past(s', b, n) ==> Past(s, b, n)
  }

  lemma SilverKept(s: State, s': State)
    requires LandedOk(s.landed) && SilverOk(s) && SameFacts(s, s') && s'.silver == s.silver && PastKept(s, s', AFTER_CUSTOMER_SILVER)
    ensures SilverOk(s')
  {
    forall l | l in s'.landed && Holding(s', l.batch)
      ensures InSilver(s', l) || Part(s'.silver, SC.SilverIn(l.batch.id)) == []
    {
      if !Holding(s, l.batch) {
        forall r | r in s.silver ensures r.batch != l.batch.id {
          NotYetInSilver(s, l, r);
        }
        NothingOfBatch(s.silver, SC.SilverIn(l.batch.id));
      }
    }
  }

  lemma NotYetInSilver(s: State, l: Landing, r: J.SilverRow)
    requires LandedOk(s.landed) && SilverOk(s) && l in s.landed && r in s.silver
    requires l.batch.id !in s.processed && !Holding(s, l.batch)
    ensures r.batch != l.batch.id
  {
    var k :| k in s.landed && r in SC.ValidRows(k.customers) && (k.batch.id in s.processed || Holding(s, k.batch));
    SC.ValidRowsFeedHistory(k.customers, k.batch.id, k.batch.at);
    if k.batch.id == l.batch.id {
      SameLanding(s.landed, k, l);
    }
  }

  lemma HistoryKept(digestOf: H.Attributes -> Digest, s: State, s': State)
    requires HistoryOk(digestOf, s) && SameFacts(s, s') && s'.history == s.history && PastKept(s, s', AFTER_CUSTOMER_SCD2)
    ensures HistoryOk(digestOf, s')
  {
  }

  lemma MartKept(s: State, s': State)
    requires MartOk(s) && SameFacts(s, s') && s'.mart == s.mart && PastKept(s, s', AFTER_CURRENT_GOLD)
    ensures MartOk(s')
  {
  }

  lemma TablesKept(digestOf: H.Attributes -> Digest, s: State, s': State)
    requires Inv(digestOf, s) && SameFacts(s, s') && FilesOk(s') && RunOk(s')
    requires s'.silver == s.silver && s'.history == s.history && s'.mart == s.mart
    requires PastKept(s, s', AFTER_CUSTOMER_SILVER)
    requires DistinctSnapshots(s.landed) ==> PastKept(s, s', AFTER_CUSTOMER_SCD2) && PastKept(s, s', AFTER_CURRENT_GOLD)
    ensures Inv(digestOf, s')
  {
    SilverKept(s, s');
    if DistinctSnapshots(s.landed) {
      HistoryKept(digestOf, s, s');
      MartKept(s, s');
    }
  }

  // ---------------------------------------------------------------- steps of the runner

  lemma InitialState(digestOf: H.Attributes -> Digest)
    ensures Inv(digestOf, INITIAL)
  {
  }

  lemma PlanKeeps(digestOf: H.Attributes -> Digest, s: State)
    requires Inv(digestOf, s) && s.run.Idle?
    ensures Inv(digestOf, AfterPlan(s))
  {
    P.PlannedIsListed(Listing(s.landed), s.processed, s.intent, 1);
    TablesKept(digestOf, s, AfterPlan(s));
  }

  lemma BeginKeeps(digestOf: H.Attributes -> Digest, s: State)
    requires Inv(digestOf, s) && s.run.Planned?
    ensures Inv(digestOf, AfterBegin(s))
  {
    var b := s.run.batch;
    if P.Reserve(Listing(s.landed), s.processed, s.intent, b.id, b.manifest).Success? {
      P.ReserveReserves(Listing(s.landed), s.processed, s.intent, b);
    }
    TablesKept(digestOf, s, AfterBegin(s));
  }

  lemma ResolveKeeps(digestOf: H.Attributes -> Digest, s: State)
    requires Inv(digestOf, s) && s.run.Begun?
    ensures Inv(digestOf, AfterResolve(s))
  {
    P.OptionsPin(Listing(s.landed), s.processed, s.intent, s.run.batch);
    TablesKept(digestOf, s, AfterResolve(s));
  }

  lemma StopKeeps(digestOf: H.Attributes -> Digest, s: State)
    requires Inv(digestOf, s)
    ensures Inv(digestOf, s.(run := Idle))
  {
    TablesKept(digestOf, s, s.(run := Idle));
  }

  lemma VerifyGoldKeeps(digestOf: H.Attributes -> Digest, s: State)
    requires Inv(digestOf, s) && s.run.Staging? && s.run.done == |StagesFor(s.run.mode)|
    ensures Inv(digestOf, s.(run := Verified(s.run.batch)))
  {
    if DistinctSnapshots(s.landed) {
      ListingOf(s.landed);
    }
    TablesKept(digestOf, s, s.(run := Verified(s.run.batch)));
  }

  lemma UnlinkKeeps(digestOf: H.Attributes -> Digest, s: State)
    requires Inv(digestOf, s) && s.run.Replaced?
    ensures Inv(digestOf, s.(intent := None, run := Idle))
  {
    TablesKept(digestOf, s, s.(intent := None, run := Idle));
  }

  // ---------------------------------------------------------------- the customer silver stage

  lemma ValidRowsReordered(a: seq<SC.Customer>, b: seq<SC.Customer>)
    requires multiset(a) == multiset(b)
    ensures forall r :: r in SC.ValidRows(a) <==> r in SC.ValidRows(b)
  {
    SC.SameClassifiedRows(a, b);
    SC.SameClassifiedRows(b, a);
  }

  ghost predicate ValidRowsOf(l: Landing, valid: seq<J.SilverRow>) {
    SourceOf(valid, SC.SilverKey, SC.SilverIn(l.batch.id)) && forall r :: r in valid <==> r in SC.ValidRows(l.customers)
  }

  lemma ReadValidRows(l: Landing, bronze: seq<SC.Customer>)
    requires SC.BronzeBatch(l.customers, l.batch.id, l.batch.at) && multiset(bronze) == multiset(l.customers)
    ensures ValidRowsOf(l, SC.ValidRows(bronze))
  {
    SC.BronzeBatchIgnoresOrder(l.customers, bronze, l.batch.id, l.batch.at);
    ValidRowsReordered(l.customers, bronze);
    SC.ValidRowsFeedHistory(bronze, l.batch.id, l.batch.at);
  }

  ghost predicate SilverGains(s: State, l: Landing, after: seq<J.SilverRow>) {
    DistinctKeys(after, SC.SilverKey) && forall r :: r in after <==> r in s.silver || r in SC.ValidRows(l.customers)
  }

  lemma SilverMergedBefore(s: State, l: Landing, valid: seq<J.SilverRow>)
    requires LandedOk(s.landed) && SilverOk(s) && l in s.landed && InSilver(s, l) && ValidRowsOf(l, valid)
    ensures InsertMissing(s.silver, valid, SC.SilverKey) == s.silver
  {
    forall k | HasKey(valid, SC.SilverKey, k) ensures HasKey(s.silver, SC.SilverKey, k) {
      var i :| 0 <= i < |valid| && SC.SilverKey(valid[i]) == k;
      assert valid[i] in SC.ValidRows(l.customers);
      var j :| 0 <= j < |s.silver| && s.silver[j] == valid[i];
    }
    RepeatedMerge(s.silver, valid, SC.SilverKey);
  }

  lemma SilverMergedFirst(silver: seq<J.SilverRow>, batch: BatchId, valid: seq<J.SilverRow>)
    requires SourceOf(valid, SC.SilverKey, SC.SilverIn(batch)) && DistinctKeys(silver, SC.SilverKey)
    requires Part(silver, SC.SilverIn(batch)) == []
    ensures InsertMissing(silver, valid, SC.SilverKey) == silver + valid && DistinctKeys(silver + valid, SC.SilverKey)
    ensures Part(silver + valid, SC.SilverIn(batch)) == valid
  {
    FirstMerge(silver, valid, SC.SilverKey, SC.SilverIn(batch));
    forall r | r in silver ensures r.batch != batch {
      assert r in Part(silver, SC.SilverIn(batch)) <==> r.batch == batch;
    }
    var after := silver + valid;
    forall i, j | 0 <= i < j < |after| ensures SC.SilverKey(after[i]) != SC.SilverKey(after[j]) {
      if i < |silver| <= j {
        assert after[i] in silver && after[j] in valid;
      }
    }
  }

  /** The valid MERGE adds exactly the landing's valid rows that are missing, all or none, and
      its count check passes. */
  lemma SilverAfterMerge(s: State, l: Landing, valid: seq<J.SilverRow>)
    requires LandedOk(s.landed) && SilverOk(s) && l in s.landed && Holding(s, l.batch) && ValidRowsOf(l, valid)
    ensures var after := InsertMissing(s.silver, valid, SC.SilverKey);
      SilverGains(s, l, after) && |Part(after, SC.SilverIn(l.batch.id))| == |valid|
  {
    if InSilver(s, l) {
      SilverMergedBefore(s, l, valid);
      BatchPart(s, l, valid);
    } else {
      SilverMergedFirst(s.silver, l.batch.id, valid);
    }
  }

  lemma BatchPart(s: State, l: Landing, valid: seq<J.SilverRow>)
    requires LandedOk(s.landed) && SilverOk(s) && l in s.landed && InSilver(s, l)
    requires DistinctKeys(valid, SC.SilverKey) && forall r :: r in valid <==> r in SC.ValidRows(l.customers)
    ensures |Part(s.silver, SC.SilverIn(l.batch.id))| == |valid|
  {
    var part := Part(s.silver, SC.SilverIn(l.batch.id));
    BatchPartIsValid(s, l);
    SameRowsSameBag(part, valid);
    SameBagSameRows(part, valid);
  }

  lemma SilverGrows(s: State, s': State, l: Landing)
    requires LandedOk(s.landed) && SilverOk(s) && l in s.landed && Holding(s, l.batch)
    requires s'.landed == s.landed && s'.processed == s.processed && s'.intent == s.intent
    requires SilverGains(s, l, s'.silver)
    requires forall b, n :: Past(s', b, n) ==> b == l.batch
    ensures SilverOk(s')
  {
    assert InSilver(s', l);
    ListingIds(s.landed);
    forall k | k in s.landed && Holding(s', k.batch) ensures k == l {
      P.OneReserved(Listing(s.landed), s.processed, s.intent, k.batch, l.batch);
      SameLanding(s.landed, k, l);
    }
    forall k | k in s.landed && k.batch.id in s'.processed ensures InSilver(s', k) {
      assert InSilver(s, k);
    }
    forall k | k in s.landed && Past(s', k.batch, AFTER_CUSTOMER_SILVER) ensures InSilver(s', k) {
      SameLanding(s.landed, k, l);
    }
  }

  lemma CustomerSilverStage(s: State, l: Landing, bronze: seq<SC.Customer>)
    requires LandedOk(s.landed) && SilverOk(s) && l in s.landed && Holding(s, l.batch) && multiset(bronze) == multiset(l.customers)
    ensures var e := CustomerSilverEffect(s, l.batch, bronze);
      && e.history == s.history && e.mart == s.mart
      && (bronze != [] ==> e.ok && SilverGains(s, l, e.silver))
      && (bronze == [] ==> !e.ok && e.silver == s.silver)
  {
    ReadValidRows(l, bronze);
    SilverAfterMerge(s, l, SC.ValidRows(bronze));
  }

  lemma SilverStepKeeps(digestOf: H.Attributes -> Digest, s: State, s': State, l: Landing)
    requires Inv(digestOf, s) && l in s.landed && Holding(s, l.batch) && RunOk(s')
    requires s'.landed == s.landed && s'.processed == s.processed && s'.intent == s.intent
    requires s'.history == s.history && s'.mart == s.mart && SilverGains(s, l, s'.silver)
    requires forall b, n :: Past(s', b, n) ==> b == l.batch
    requires PastKept(s, s', AFTER_CUSTOMER_SCD2) && PastKept(s, s', AFTER_CURRENT_GOLD)
    ensures Inv(digestOf, s')
  {
    SilverGrows(s, s', l);
    if DistinctSnapshots(s.landed) {
      HistoryKept(digestOf, s, s');
      MartKept(s, s');
    }
  }

  lemma CustomerSilverKeeps(digestOf: H.Attributes -> Digest, s: State, l: Landing, bronze: seq<SC.Customer>, lost: bool)
    requires Inv(digestOf, s) && s.run.Staging? && s.run.done == 5
    requires l in s.landed && l.batch == s.run.batch && multiset(bronze) == multiset(l.customers)
    ensures Inv(digestOf, AfterStage(digestOf, s, bronze, lost))
  {
    AfterCustomerSilver(digestOf, s, bronze, lost);
    if bronze == [] {
      StopKeeps(digestOf, s);
    } else {
      LoadedSilverKeeps(digestOf, s, AfterStage(digestOf, s, bronze, lost), l, bronze);
    }
  }

  lemma LoadedSilverKeeps(digestOf: H.Attributes -> Digest, s: State, s': State, l: Landing, bronze: seq<SC.Customer>)
    requires Inv(digestOf, s) && s.run.Staging? && s.run.done == 5
    requires l in s.landed && l.batch == s.run.batch && multiset(bronze) == multiset(l.customers) && bronze != []
    requires s' == s.(silver := CustomerSilverEffect(s, l.batch, bronze).silver, run := s'.run)
    requires s'.run == Idle || s'.run == Staging(s.run.batch, s.run.mode, 6)
    ensures Inv(digestOf, s')
  {
    CustomerSilverStage(s, l, bronze);
    SilverStepKeeps(digestOf, s, s', l);
  }

  lemma AfterCustomerSilver(digestOf: H.Attributes -> Digest, s: State, bronze: seq<SC.Customer>, lost: bool)
    requires s.run.Staging? && s.run.done == 5
    ensures var e := CustomerSilverEffect(s, s.run.batch, bronze);
      AfterStage(digestOf, s, bronze, lost) == s.(silver := e.silver,
        run := if e.ok && !lost then Staging(s.run.batch, s.run.mode, 6) else Idle)
  {
    assert StagesFor(s.run.mode)[5] == CustomerSilver;
  }

  // ---------------------------------------------------------------- the customer history stage

  /** The two tables that the invariant allows are the ones without and with the active batch. */
  lemma HistoryIsOneOfTwo(digestOf: H.Attributes -> Digest, s: State, l: Landing)
    requires LandedOk(s.landed) && HistoryOk(digestOf, s) && Holding(s, l.batch)
    ensures HistoryOf(digestOf, s, s.processed.Keys) || HistoryOf(digestOf, s, s.processed.Keys + {l.batch.id})
  {
  }

  lemma CustomerScd2Stage(digestOf: H.Attributes -> Digest, s: State, l: Landing)
    requires StageReady(s, l) && HistoryOk(digestOf, s)
    ensures var e := CustomerScd2Effect(digestOf, s, l.batch, P.OptionsFor(l.batch, s.processed));
      && e.silver == s.silver && e.mart == s.mart
      && (e.ok ==> T.Holds(e.history, Known(digestOf, s.landed, s.processed.Keys + {l.batch.id})))
      && (!e.ok ==> e.history == s.history)
      && (SC.ValidRows(l.customers) != [] ==> e.ok)
  {
    HistoryIsOneOfTwo(digestOf, s, l);
    if P.OptionsFor(l.batch, s.processed) == Some(P.Rebuild) {
      RebuildStage(digestOf, s, l);
      if SC.ValidRows(l.customers) != [] {
        assert SC.ValidRows(l.customers)[0] in s.silver;
      }
    } else {
      ForwardStage(digestOf, s, l);
      if SC.ValidRows(l.customers) != [] {
        assert J.WithHistoryColumns(digestOf, SC.ValidRows(l.customers))[0] in ObservationsOf(digestOf, l);
      }
    }
  }

  lemma HistoryAdvances(digestOf: H.Attributes -> Digest, s: State, s': State, l: Landing)
    requires LandedOk(s.landed) && Holding(s, l.batch)
    requires s'.landed == s.landed && s'.processed == s.processed && s'.intent == s.intent
    requires HistoryOf(digestOf, s', s.processed.Keys + {l.batch.id})
    requires forall b, n :: Past(s', b, n) ==> b == l.batch
    ensures HistoryOk(digestOf, s')
  {
  }

  lemma CustomerScd2Keeps(digestOf: H.Attributes -> Digest, s: State, l: Landing, bronze: seq<SC.Customer>, lost: bool)
    requires Inv(digestOf, s) && s.run.Staging? && s.run.done == 6
    requires l in s.landed && l.batch == s.run.batch
    ensures Inv(digestOf, AfterStage(digestOf, s, bronze, lost))
  {
    var s' := AfterStage(digestOf, s, bronze, lost);
    assert Past(s, l.batch, AFTER_CUSTOMER_SILVER);
    SilverKept(s, s');
    if DistinctSnapshots(s.landed) {
      MartKept(s, s');
      CustomerScd2Stage(digestOf, s, l);
      if s'.history == s.history && s'.run == Idle {
        HistoryKept(digestOf, s, s');
      } else {
        HistoryAdvances(digestOf, s, s', l);
      }
    }
  }

  // ---------------------------------------------------------------- the current gold stage

  lemma MartIsOneOfTwo(s: State, l: Landing)
    requires LandedOk(s.landed) && MartOk(s) && Holding(s, l.batch)
    ensures LatestOf(s.landed, s.processed.Keys, s.mart) || LatestOf(s.landed, s.processed.Keys + {l.batch.id}, s.mart)
  {
  }

  lemma CurrentGoldStage(s: State, l: Landing)
    requires LandedOk(s.landed) && MartOk(s) && DistinctSnapshots(s.landed) && l in s.landed && Holding(s, l.batch)
    ensures var e := CurrentGoldEffect(s, l.batch);
      e.ok && e.silver == s.silver && e.history == s.history && LatestOf(s.landed, s.processed.Keys + {l.batch.id}, e.mart)
  {
  }

  lemma MartStepKeeps(digestOf: H.Attributes -> Digest, s: State, s': State, l: Landing)
    requires Inv(digestOf, s) && l in s.landed && Holding(s, l.batch) && RunOk(s')
    requires s'.landed == s.landed && s'.processed == s.processed && s'.intent == s.intent
    requires s'.silver == s.silver && s'.history == s.history
    requires forall b, n :: Past(s', b, n) ==> b == l.batch
    requires PastKept(s, s', AFTER_CUSTOMER_SILVER) && PastKept(s, s', AFTER_CUSTOMER_SCD2)
    requires DistinctSnapshots(s.landed) ==> LatestOf(s.landed, s.processed.Keys + {l.batch.id}, s'.mart)
    ensures Inv(digestOf, s')
  {
    SilverKept(s, s');
    if DistinctSnapshots(s.landed) {
      HistoryKept(digestOf, s, s');
      assert Holding(s', l.batch);
    }
  }

  lemma CurrentGoldKeeps(digestOf: H.Attributes -> Digest, s: State, l: Landing, bronze: seq<SC.Customer>, lost: bool)
    requires Inv(digestOf, s) && s.run.Staging? && s.run.done == 8 && s.run.mode != None
    requires l in s.landed && l.batch == s.run.batch
    ensures Inv(digestOf, AfterStage(digestOf, s, bronze, lost))
  {
    if DistinctSnapshots(s.landed) {
      CurrentGoldStage(s, l);
    }
    MartStepKeeps(digestOf, s, AfterStage(digestOf, s, bronze, lost), l);
  }

  lemma StageKeeps(digestOf: H.Attributes -> Digest, s: State, bronze: seq<SC.Customer>, lost: bool, l: Landing)
    requires Inv(digestOf, s) && s.run.Staging? && s.run.done < |StagesFor(s.run.mode)|
    requires l in s.landed && l.batch == s.run.batch && multiset(bronze) == multiset(l.customers)
    ensures Inv(digestOf, AfterStage(digestOf, s, bronze, lost))
  {
    if s.run.done == 5 {
      CustomerSilverKeeps(digestOf, s, l, bronze, lost);
    } else if s.run.done == 6 {
      CustomerScd2Keeps(digestOf, s, l, bronze, lost);
    } else if s.run.done == 8 {
      CurrentGoldKeeps(digestOf, s, l, bronze, lost);
    } else {
      OtherStageKeeps(digestOf, s, bronze, lost);
    }
  }

  lemma OtherStageKeeps(digestOf: H.Attributes -> Digest, s: State, bronze: seq<SC.Customer>, lost: bool)
    requires Inv(digestOf, s) && s.run.Staging? && s.run.done < |StagesFor(s.run.mode)|
    requires s.run.done != 5 && s.run.done != 6 && s.run.done != 8
    ensures Inv(digestOf, AfterStage(digestOf, s, bronze, lost))
  {
    OtherStageIs(digestOf, s, bronze, lost);
    TablesKept(digestOf, s, s.(run := AfterStage(digestOf, s, bronze, lost).run));
  }

  lemma OtherStageIs(digestOf: H.Attributes -> Digest, s: State, bronze: seq<SC.Customer>, lost: bool)
    requires s.run.Staging? && s.run.done < |StagesFor(s.run.mode)|
    requires s.run.done != 5 && s.run.done != 6 && s.run.done != 8
    ensures AfterStage(digestOf, s, bronze, lost) ==
      s.(run := if lost then Idle else Staging(s.run.batch, s.run.mode, s.run.done + 1))
  {
  }

  // ---------------------------------------------------------------- the checkpoint step

  lemma SilverCheckpointed(s: State, s': State, l: Landing)
    requires LandedOk(s.landed) && SilverOk(s) && l in s.landed && Holding(s, l.batch) && InSilver(s, l)
    requires s'.landed == s.landed && s'.silver == s.silver && s'.intent == s.intent && s'.run == Replaced(l.batch)
    requires s'.processed == s.processed[l.batch.id := P.MarkOf(l.batch)]
    ensures SilverOk(s')
  {
    assert forall b :: !Holding(s', b);
    forall r | r in s'.silver
      ensures exists k :: k in s'.landed && r in SC.ValidRows(k.customers) && (k.batch.id in s'.processed || Holding(s', k.batch))
    {
      var k := SilverOwner(s, l, r);
    }
    forall k | k in s'.landed && k.batch.id in s'.processed ensures InSilver(s', k) {
      if k.batch.id == l.batch.id {
        SameLanding(s.landed, k, l);
      } else {
        assert InSilver(s, k);
      }
    }
  }

  lemma TablesCheckpointed(digestOf: H.Attributes -> Digest, s: State, s': State, b: P.Batch)
    requires HistoryOk(digestOf, s) && MartOk(s) && s.run == Verified(b)
    requires s'.landed == s.landed && s'.history == s.history && s'.mart == s.mart && s'.run == Replaced(b)
    requires s'.processed == s.processed[b.id := P.MarkOf(b)]
    ensures HistoryOk(digestOf, s') && MartOk(s')
  {
    assert s'.processed.Keys == s.processed.Keys + {b.id};
    assert Past(s, b, AFTER_CUSTOMER_SCD2) && Past(s, b, AFTER_CURRENT_GOLD);
  }

  lemma FilesCheckpointed(s: State, s': State, b: P.Batch)
    requires FilesOk(s) && Holding(s, b)
    requires s'.landed == s.landed && s'.intent == s.intent && s'.processed == s.processed[b.id := P.MarkOf(b)]
    ensures FilesOk(s')
  {
  }

  lemma ReplaceKeeps(digestOf: H.Attributes -> Digest, s: State, inTime: bool)
    requires Inv(digestOf, s) && s.run.Verified?
    ensures Inv(digestOf, AfterReplace(s, inTime))
    ensures inTime ==> AfterReplace(s, true) == s.(processed := s.processed[s.run.batch.id := P.MarkOf(s.run.batch)], run := Replaced(s.run.batch))
  {
    var b, s' := s.run.batch, AfterReplace(s, inTime);
    P.DecisionsPin(Listing(s.landed), s.processed, s.intent, b, b.id, None);
    if inTime {
      ListingOf(s.landed);
      var l :| l in s.landed && l.batch == b;
      assert Past(s, l.batch, AFTER_CUSTOMER_SILVER);
      SilverCheckpointed(s, s', l);
      FilesCheckpointed(s, s', b);
      if DistinctSnapshots(s.landed) {
        TablesCheckpointed(digestOf, s, s', b);
      }
    } else {
      StopKeeps(digestOf, s);
    }
  }

  // ---------------------------------------------------------------- an arrival

  lemma ListingGrows(landed: seq<Landing>, l: Landing)
    ensures Listing(landed + [l]) == Listing(landed) + [l.batch]
  {
  }

  /** A new landing has no reservation, no checkpoint entry and no progress of the runner. */
  ghost predicate Arrived(s: State, s': State, l: Landing) {
    && s'.landed == s.landed + [l] && s'.processed == s.processed
    && s'.silver == s.silver && s'.history == s.history && s'.mart == s.mart
    && l.batch.id !in s.processed
    && (forall b :: Holding(s', b) <==> Holding(s, b))
    && (forall b :: Holding(s, b) ==> b.id != l.batch.id)
    && (forall b, n :: Past(s', b, n) <==> Past(s, b, n))
    && (forall b, n :: Past(s, b, n) ==> b.id != l.batch.id)
  }

  lemma ArrivalIsNew(s: State, l: Landing)
    requires LandedOk(s.landed) && FilesOk(s) && RunOk(s) && forall k :: k in s.landed ==> k.batch.id != l.batch.id
    ensures var s' := s.(landed := s.landed + [l]);
      Arrived(s, s', l) && FilesOk(s') && RunOk(s')
  {
    ListingGrows(s.landed, l);
    ListingOf(s.landed);
  }

  ghost predicate Allowed(s: State, r: J.SilverRow) {
    exists l :: l in s.landed && r in SC.ValidRows(l.customers) && (l.batch.id in s.processed || Holding(s, l.batch))
  }

  lemma AllowedAfterArrival(s: State, s': State, l: Landing, r: J.SilverRow)
    requires Allowed(s, r) && Arrived(s, s', l)
    ensures Allowed(s', r)
  {
    var k :| k in s.landed && r in SC.ValidRows(k.customers) && (k.batch.id in s.processed || Holding(s, k.batch));
    assert k in s'.landed;
  }

  lemma SilverAfterArrival(s: State, s': State, l: Landing)
    requires SilverOk(s) && Arrived(s, s', l)
    ensures SilverOk(s')
  {
    forall k ensures InSilver(s', k) <==> InSilver(s, k) {
    }
    forall r | r in s'.silver ensures Allowed(s', r) {
      assert Allowed(s, r);
      AllowedAfterArrival(s, s', l, r);
    }
  }

  lemma HistoryAfterArrival(digestOf: H.Attributes -> Digest, s: State, s': State, l: Landing)
    requires HistoryOk(digestOf, s) && Arrived(s, s', l)
    ensures HistoryOk(digestOf, s')
  {
    var done := s.processed.Keys;
    if HistoryOf(digestOf, s, done) {
      KnownAfterLanding(digestOf, s.landed, l, done);
    } else {
      var b :| Holding(s, b) && HistoryOf(digestOf, s, done + {b.id});
      KnownAfterLanding(digestOf, s.landed, l, done + {b.id});
      assert Holding(s', b) && HistoryOf(digestOf, s', done + {b.id});
    }
    forall b | Past(s', b, AFTER_CUSTOMER_SCD2) ensures HistoryOf(digestOf, s', done + {b.id}) {
      assert Past(s, b, AFTER_CUSTOMER_SCD2);
      KnownAfterLanding(digestOf, s.landed, l, done + {b.id});
    }
  }

  lemma MartAfterArrival(s: State, s': State, l: Landing)
    requires MartOk(s) && Arrived(s, s', l)
    ensures MartOk(s')
  {
  }

  lemma LandKeeps(digestOf: H.Attributes -> Digest, s: State, l: Landing)
    requires Inv(digestOf, s) && (forall k :: k in s.landed ==> k.batch.id != l.batch.id)
    requires SC.BronzeBatch(l.customers, l.batch.id, l.batch.at)
    ensures Inv(digestOf, s.(landed := s.landed + [l]))
  {
    var s' := s.(landed := s.landed + [l]);
    ArrivalIsNew(s, l);
    SilverAfterArrival(s, s', l);
    if DistinctSnapshots(s'.landed) {
      assert forall k :: k in s.landed ==> k in s'.landed;
      HistoryAfterArrival(digestOf, s, s', l);
      MartAfterArrival(s, s', l);
    }
  }

  // ---------------------------------------------------------------- every step, every run

  lemma StepKeeps(digestOf: H.Attributes -> Digest, s: State, s': State, step: Step)
    requires Inv(digestOf, s) && Next(digestOf, s, s', step)
    ensures Inv(digestOf, s')
  {
    match step
    case Land(l) => LandKeeps(digestOf, s, l);
    case Plan => PlanKeeps(digestOf, s);
    case Begin => BeginKeeps(digestOf, s);
    case Resolve => ResolveKeeps(digestOf, s);
    case RunStage(bronze, lost) =>
      var l :| l in s.landed && l.batch == s.run.batch && multiset(bronze) == multiset(l.customers);
      StageKeeps(digestOf, s, bronze, lost, l);
    case StageFails => StopKeeps(digestOf, s);
    case VerifyGold(passed) =>
      if passed {
        VerifyGoldKeeps(digestOf, s);
      } else {
        StopKeeps(digestOf, s);
      }
    case Replace(inTime) => ReplaceKeeps(digestOf, s, inTime);
    case Unlink => UnlinkKeeps(digestOf, s);
    case Crash => StopKeeps(digestOf, s);
  }

  lemma {:induction false} Reachable(digestOf: H.Attributes -> Digest, states: seq<State>, steps: seq<Step>, n: nat)
    requires Behaviour(digestOf, states, steps) && n <= |steps|
    ensures Inv(digestOf, states[n])
  {
    if n == 0 {
      InitialState(digestOf);
    } else {
      Reachable(digestOf, states, steps, n - 1);
      StepKeeps(digestOf, states[n - 1], states[n], steps[n - 1]);
    }
  }
}
