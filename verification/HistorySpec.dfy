/** What the customer history table means, independently of how it is maintained.

    An observation says that a customer had certain attributes in the snapshot taken at an
    instant. `History` is the reading of a complete set of observations through the lag and lead
    windows; `PointInTime` and `HistoryIsUnique` say what that reading answers and that nothing
    else answers it. */
module HistorySpec {
  import opened Types

  datatype Attributes = Attributes(fullName: Option<nat>, email: Option<nat>, emailIsMissing: bool, registeredAt: Option<Instant>)

  datatype Observation = Observation(customer: CustomerId, at: Instant, batch: BatchId, digest: Digest, attributes: Attributes)

  /** One row of the history table. The version identifier of the real table is a function of
      customer, digest and batch, so it adds nothing to row equality and is not a field. */
  datatype Version = Version(
    customer: CustomerId, attributes: Attributes, digest: Digest, batch: BatchId,
    validFrom: Instant, validTo: Option<Instant>, isCurrent: bool)

  /** At most one observation of a customer at an instant. */
  ghost predicate Unambiguous(obs: set<Observation>) {
    forall a, b :: a in obs && b in obs && a.customer == b.customer && a.at == b.at ==> a == b
  }

  /** p is the customer's last observation at or before t. */
  ghost predicate Latest(obs: set<Observation>, c: CustomerId, t: Instant, p: Observation) {
    p in obs && p.customer == c && p.at <= t &&
    forall q :: q in obs && q.customer == c && q.at <= t ==> q.at <= p.at
  }

  /** p is the lag of o in the customer's observations by time. */
  ghost predicate Lag(obs: set<Observation>, o: Observation, p: Observation) {
    Latest(obs, o.customer, o.at - 1, p)
  }

  /** o begins a version: its lag is null or carries another digest. */
  ghost predicate Starts(obs: set<Observation>, o: Observation) {
    o in obs && forall p :: Lag(obs, o, p) ==> p.digest != o.digest
  }

  /** n is the lead of o among the observations that begin a version. */
  ghost predicate NextStart(obs: set<Observation>, o: Observation, n: Observation) {
    Starts(obs, n) && n.customer == o.customer && o.at < n.at &&
    forall m :: Starts(obs, m) && m.customer == o.customer && o.at < m.at ==> n.at <= m.at
  }

  ghost function EndOf(obs: set<Observation>, o: Observation): Option<Instant> {
    if exists n :: NextStart(obs, o, n) then
      var n :| NextStart(obs, o, n);
      Some(n.at)
    else None
  }

  function VersionFrom(o: Observation, validTo: Option<Instant>): Version {
    Version(o.customer, o.attributes, o.digest, o.batch, o.at, validTo, validTo == None)
  }

  ghost function History(obs: set<Observation>): set<Version> {
    set o | o in obs && Starts(obs, o) :: VersionFrom(o, EndOf(obs, o))
  }

  predicate Covers(v: Version, t: Instant) {
    v.validFrom <= t && (v.validTo == None || t < v.validTo.value)
  }

  // ---------------------------------------------------------------- finding observations

  lemma {:induction false} GreatestExists(s: set<Observation>) returns (p: Observation)
    requires s != {}
    ensures p in s && forall q :: q in s ==> q.at <= p.at
  {
    var x :| x in s;
    if s == {x} {
      p := x;
    } else {
      var rest := s - {x};
      assert s == rest + {x};
      var best := GreatestExists(rest);
      p := if best.at < x.at then x else best;
    }
  }

  lemma {:induction false} LeastExists(s: set<Observation>) returns (p: Observation)
    requires s != {}
    ensures p in s && forall q :: q in s ==> p.at <= q.at
  {
    var x :| x in s;
    if s == {x} {
      p := x;
    } else {
      var rest := s - {x};
      assert s == rest + {x};
      var best := LeastExists(rest);
      p := if x.at < best.at then x else best;
    }
  }

  lemma LatestExists(obs: set<Observation>, c: CustomerId, t: Instant, o: Observation) returns (p: Observation)
    requires o in obs && o.customer == c && o.at <= t
    ensures Latest(obs, c, t, p) && o.at <= p.at
  {
    var s := set q | q in obs && q.customer == c && q.at <= t;
    assert o in s;
    p := GreatestExists(s);
  }

  lemma NextStartExists(obs: set<Observation>, o: Observation, m: Observation) returns (n: Observation)
    requires Starts(obs, m) && m.customer == o.customer && o.at < m.at
    ensures NextStart(obs, o, n) && n.at <= m.at
  {
    var s := set q | q in obs && Starts(obs, q) && q.customer == o.customer && o.at < q.at;
    assert m in s;
    n := LeastExists(s);
  }

  /** EndOf is the instant of the lead, and is None exactly when nothing starts later. */
  lemma EndOfMeans(obs: set<Observation>, o: Observation)
    ensures EndOf(obs, o) == None ==> forall m :: Starts(obs, m) && m.customer == o.customer ==> m.at <= o.at
    ensures EndOf(obs, o) != None ==> exists n :: NextStart(obs, o, n) && n.at == EndOf(obs, o).value
    ensures forall n :: NextStart(obs, o, n) ==> EndOf(obs, o) == Some(n.at)
  {
    if EndOf(obs, o) == None {
      forall m | Starts(obs, m) && m.customer == o.customer ensures m.at <= o.at {
        if o.at < m.at {
          var n := NextStartExists(obs, o, m);
        }
      }
    }
    forall n | NextStart(obs, o, n) ensures EndOf(obs, o) == Some(n.at) {
      var k :| NextStart(obs, o, k) && EndOf(obs, o) == Some(k.at);
    }
  }

  ghost function Before(obs: set<Observation>, t: Instant): set<Observation> {
    set o | o in obs && o.at < t
  }

  /** Every observation is represented by the last version started at or before it, and that
      version has its digest. */
  lemma {:induction false} LastStart(obs: set<Observation>, p: Observation) returns (s: Observation)
    requires Unambiguous(obs) && p in obs
    ensures Starts(obs, s) && s.customer == p.customer && s.at <= p.at && s.digest == p.digest
    ensures forall m :: Starts(obs, m) && m.customer == p.customer && s.at < m.at ==> p.at < m.at
    decreases Before(obs, p.at)
  {
    if Starts(obs, p) {
      s := p;
    } else {
      var q :| Lag(obs, p, q) && q.digest == p.digest;
      assert Before(obs, q.at) <= Before(obs, p.at) && q in Before(obs, p.at) && q !in Before(obs, q.at);
      assert forall m :: Starts(obs, m) && m.customer == p.customer && m.at <= p.at ==> m.at <= q.at;
      s := LastStart(obs, q);
    }
  }

  // ---------------------------------------------------------------- what the rows answer

  /** The row that covers an instant carries the latest observation's digest. */
  lemma CoveringRowExists(obs: set<Observation>, c: CustomerId, t: Instant, p: Observation) returns (v: Version)
    requires Unambiguous(obs) && Latest(obs, c, t, p)
    ensures v in History(obs) && v.customer == c && Covers(v, t) && v.digest == p.digest
  {
    var s := LastStart(obs, p);
    v := VersionFrom(s, EndOf(obs, s));
    EndOfMeans(obs, s);
    if v.validTo != None {
      var n :| NextStart(obs, s, n) && n.at == EndOf(obs, s).value;
      assert p.at < n.at;
    }
  }

  /** Two rows of one customer never cover the same instant. */
  lemma RowsDoNotOverlap(obs: set<Observation>, v: Version, w: Version, t: Instant)
    requires Unambiguous(obs) && v in History(obs) && w in History(obs) && v.customer == w.customer
    requires Covers(v, t) && Covers(w, t)
    ensures v == w
  {
    var a :| a in obs && Starts(obs, a) && v == VersionFrom(a, EndOf(obs, a));
    var b :| b in obs && Starts(obs, b) && w == VersionFrom(b, EndOf(obs, b));
    if a.at < b.at {
      var n := NextStartExists(obs, a, b);
      EndOfMeans(obs, a);
    } else if b.at < a.at {
      var n := NextStartExists(obs, b, a);
      EndOfMeans(obs, b);
    }
  }

  /** Point-in-time meaning: at or after the first observation exactly one row covers an instant,
      and its digest is that of the latest observation; before it no row does. */
  lemma PointInTime(obs: set<Observation>, c: CustomerId, t: Instant)
    requires Unambiguous(obs)
    ensures (exists v :: v in History(obs) && v.customer == c && Covers(v, t)) <==> (exists p :: Latest(obs, c, t, p))
    ensures forall v, p :: v in History(obs) && v.customer == c && Covers(v, t) && Latest(obs, c, t, p) ==> v.digest == p.digest
    ensures forall v, w :: v in History(obs) && w in History(obs) && v.customer == c && w.customer == c && Covers(v, t) && Covers(w, t) ==> v == w
  {
    forall v, w | v in History(obs) && w in History(obs) && v.customer == c && w.customer == c && Covers(v, t) && Covers(w, t)
      ensures v == w
    {
      RowsDoNotOverlap(obs, v, w, t);
    }
    forall p | Latest(obs, c, t, p) ensures exists v :: v in History(obs) && v.customer == c && Covers(v, t) && v.digest == p.digest {
      var v := CoveringRowExists(obs, c, t, p);
    }
    if v :| v in History(obs) && v.customer == c && Covers(v, t) {
      var o :| o in obs && Starts(obs, o) && v == VersionFrom(o, EndOf(obs, o));
      var p := LatestExists(obs, c, t, o);
    }
  }

  // ---------------------------------------------------------------- and nothing else answers it

  /** Rows are taken from observations, with flags that agree with the period. */
  ghost predicate TakenFrom(obs: set<Observation>, table: set<Version>) {
    forall v :: v in table ==> exists o :: o in obs && v == VersionFrom(o, v.validTo)
  }

  ghost predicate PeriodsPositive(table: set<Version>) {
    forall v :: v in table && v.validTo != None ==> v.validFrom < v.validTo.value
  }

  /** No version is split in two. */
  ghost predicate NeighboursDiffer(table: set<Version>) {
    forall v, w :: v in table && w in table && v.customer == w.customer && v.validTo == Some(w.validFrom) ==> v.digest != w.digest
  }

  ghost predicate AnswersWith(table: set<Version>, c: CustomerId, t: Instant, digest: Digest) {
    exists v :: v in table && v.customer == c && Covers(v, t) && v.digest == digest
  }

  ghost predicate NeverOverlaps(table: set<Version>) {
    forall v, w, t :: v in table && w in table && v.customer == w.customer && Covers(v, t) && Covers(w, t) ==> v == w
  }

  /** A table that answers every point-in-time question from the observations. */
  ghost predicate Answers(obs: set<Observation>, table: set<Version>) {
    && TakenFrom(obs, table) && PeriodsPositive(table) && NeighboursDiffer(table) && NeverOverlaps(table)
    && forall c, t, p :: Latest(obs, c, t, p) ==> AnswersWith(table, c, t, p.digest)
  }

  lemma HistoryAnswers(obs: set<Observation>)
    requires Unambiguous(obs)
    ensures Answers(obs, History(obs))
  {
    forall v | v in History(obs)
      ensures exists o :: o in obs && v == VersionFrom(o, v.validTo)
      ensures v.validTo != None ==> v.validFrom < v.validTo.value
    {
      var o :| o in obs && Starts(obs, o) && v == VersionFrom(o, EndOf(obs, o));
      EndOfMeans(obs, o);
    }
    forall v, w | v in History(obs) && w in History(obs) && v.customer == w.customer && v.validTo == Some(w.validFrom)
      ensures v.digest != w.digest
    {
      AdjacentVersionsDiffer(obs, v, w);
    }
    forall c, t, p | Latest(obs, c, t, p) ensures AnswersWith(History(obs), c, t, p.digest) {
      var v := CoveringRowExists(obs, c, t, p);
    }
    forall v, w, t | v in History(obs) && w in History(obs) && v.customer == w.customer && Covers(v, t) && Covers(w, t)
      ensures v == w
    {
      RowsDoNotOverlap(obs, v, w, t);
    }
  }

  lemma AdjacentVersionsDiffer(obs: set<Observation>, v: Version, w: Version)
    requires Unambiguous(obs) && v in History(obs) && w in History(obs)
    requires v.customer == w.customer && v.validTo == Some(w.validFrom)
    ensures v.digest != w.digest
  {
    var a :| a in obs && Starts(obs, a) && v == VersionFrom(a, EndOf(obs, a));
    var b :| b in obs && Starts(obs, b) && w == VersionFrom(b, EndOf(obs, b));
    EndOfMeans(obs, a);
    var p := LatestExists(obs, b.customer, b.at - 1, a);
    var s := LastStart(obs, p);
    assert s.at <= a.at by {
      if a.at < s.at {
        var n := NextStartExists(obs, a, s);
      }
    }
    assert a.at <= s.at;
    assert s == a;
  }

  /** The row of an answering table that covers an instant after some observation. */
  lemma AnsweringRow(obs: set<Observation>, table: set<Version>, c: CustomerId, t: Instant, p: Observation) returns (w: Version)
    requires Answers(obs, table) && Latest(obs, c, t, p)
    ensures w in table && w.customer == c && Covers(w, t) && w.digest == p.digest
    ensures forall v :: v in table && v.customer == c && Covers(v, t) ==> v == w
  {
    w :| w in table && w.customer == c && Covers(w, t) && w.digest == p.digest;
  }

  /** A row of an answering table starts at an observation that begins a version. */
  lemma AnsweringRowStarts(obs: set<Observation>, table: set<Version>, v: Version, o: Observation)
    requires Unambiguous(obs) && Answers(obs, table) && v in table && o in obs && v == VersionFrom(o, v.validTo)
    ensures Starts(obs, o)
  {
    forall p | Lag(obs, o, p) ensures p.digest != o.digest {
      var w := AnsweringRow(obs, table, o.customer, o.at - 1, p);
      assert Latest(obs, o.customer, o.at, o);
      var u := AnsweringRow(obs, table, o.customer, o.at, o);
      assert u == v;
      assert !Covers(w, o.at);
      assert w.validTo == Some(v.validFrom);
    }
  }

  /** Its period lasts to the lead: no version starts while it runs. */
  lemma AnsweringRowStopsByLead(obs: set<Observation>, table: set<Version>, v: Version, o: Observation, m: Observation)
    requires Unambiguous(obs) && Answers(obs, table) && v in table && o in obs && v == VersionFrom(o, v.validTo)
    requires Starts(obs, m) && m.customer == o.customer && o.at < m.at
    ensures v.validTo != None && v.validTo.value <= m.at
  {
    if Covers(v, m.at) {
      var p := LatestExists(obs, o.customer, m.at - 1, o);
      var before := AnsweringRow(obs, table, o.customer, m.at - 1, p);
      var after := AnsweringRow(obs, table, o.customer, m.at, m);
    }
  }

  /** When its period ends, a version starts there. */
  lemma AnsweringRowEndsAtStart(obs: set<Observation>, table: set<Version>, v: Version, o: Observation)
    returns (b: Observation)
    requires Unambiguous(obs) && Answers(obs, table) && v in table && o in obs && v == VersionFrom(o, v.validTo)
    requires v.validTo != None
    ensures Starts(obs, b) && b.customer == o.customer && b.at == v.validTo.value
  {
    var t := v.validTo.value;
    var p := LatestExists(obs, o.customer, t, o);
    var w := AnsweringRow(obs, table, o.customer, t, p);
    assert w.validFrom == t by {
      if w.validFrom < t {
        assert Covers(v, t - 1) && Covers(w, t - 1);
      }
    }
    b :| b in obs && w == VersionFrom(b, w.validTo);
    AnsweringRowStarts(obs, table, w, b);
  }

  lemma AnsweringRowEnds(obs: set<Observation>, table: set<Version>, v: Version, o: Observation)
    requires Unambiguous(obs) && Answers(obs, table) && v in table && o in obs && v == VersionFrom(o, v.validTo)
    ensures v.validTo == EndOf(obs, o)
  {
    EndOfMeans(obs, o);
    if v.validTo == None {
      if n :| NextStart(obs, o, n) {
        AnsweringRowStopsByLead(obs, table, v, o, n);
      }
    } else {
      var b := AnsweringRowEndsAtStart(obs, table, v, o);
      forall m | Starts(obs, m) && m.customer == o.customer && o.at < m.at ensures b.at <= m.at {
        AnsweringRowStopsByLead(obs, table, v, o, m);
      }
      assert NextStart(obs, o, b);
    }
  }

  /** Every version start has its row in an answering table. */
  lemma StartHasRow(obs: set<Observation>, table: set<Version>, o: Observation)
    requires Unambiguous(obs) && Answers(obs, table) && Starts(obs, o)
    ensures VersionFrom(o, EndOf(obs, o)) in table
  {
    assert Latest(obs, o.customer, o.at, o);
    var w := AnsweringRow(obs, table, o.customer, o.at, o);
    var b :| b in obs && w == VersionFrom(b, w.validTo);
    if b.at < o.at {
      var p := LatestExists(obs, o.customer, o.at - 1, b);
      var u := AnsweringRow(obs, table, o.customer, o.at - 1, p);
      assert Covers(w, o.at - 1);
    }
    AnsweringRowEnds(obs, table, w, b);
  }

  /** Uniqueness: the history is the only table that answers its observations. */
  lemma HistoryIsUnique(obs: set<Observation>, table: set<Version>)
    requires Unambiguous(obs) && Answers(obs, table)
    ensures table == History(obs)
  {
    forall v | v in table ensures v in History(obs) {
      var o :| o in obs && v == VersionFrom(o, v.validTo);
      AnsweringRowStarts(obs, table, v, o);
      AnsweringRowEnds(obs, table, v, o);
    }
    forall v | v in History(obs) ensures v in table {
      var o :| o in obs && Starts(obs, o) && v == VersionFrom(o, EndOf(obs, o));
      StartHasRow(obs, table, o);
    }
  }

  // ---------------------------------------------------------------- one strictly later batch

  /** A batch with one observation a customer, later than everything known of that customer. */
  ghost predicate LaterBatch(obs: set<Observation>, batch: set<Observation>) {
    && (forall a, b :: a in batch && b in batch && a.customer == b.customer ==> a == b)
    && (forall o, b :: o in obs && b in batch && o.customer == b.customer ==> o.at < b.at)
  }

  lemma LaterBatchIsUnambiguous(obs: set<Observation>, batch: set<Observation>)
    requires Unambiguous(obs) && LaterBatch(obs, batch)
    ensures Unambiguous(obs + batch)
  {
  }

  /** The batch changes what is known of b's customer, judged from the current rows alone. */
  ghost predicate ChangedBy(table: set<Version>, b: Observation) {
    forall v :: v in table && v.customer == b.customer && v.isCurrent ==> v.digest != b.digest
  }

  /** The current row is the one that carries the customer's last observation. */
  lemma CurrentRow(obs: set<Observation>, p: Observation) returns (v: Version)
    requires Unambiguous(obs) && p in obs
    requires forall q :: q in obs && q.customer == p.customer ==> q.at <= p.at
    ensures v in History(obs) && v.customer == p.customer && v.isCurrent && v.digest == p.digest
    ensures forall w :: w in History(obs) && w.customer == p.customer && w.isCurrent ==> w == v
  {
    var s := LastStart(obs, p);
    v := VersionFrom(s, EndOf(obs, s));
    EndOfMeans(obs, s);
    forall w | w in History(obs) && w.customer == p.customer && w.isCurrent ensures w == v {
      var o :| o in obs && Starts(obs, o) && w == VersionFrom(o, EndOf(obs, o));
      RowsDoNotOverlap(obs, v, w, p.at);
    }
  }

  lemma OldStartsKept(obs: set<Observation>, batch: set<Observation>, o: Observation)
    requires LaterBatch(obs, batch) && o in obs
    ensures Starts(obs + batch, o) <==> Starts(obs, o)
  {
    forall p ensures Lag(obs + batch, o, p) <==> Lag(obs, o, p) {
    }
  }

  lemma NewStarts(obs: set<Observation>, batch: set<Observation>, b: Observation)
    requires Unambiguous(obs) && LaterBatch(obs, batch) && b in batch
    ensures Starts(obs + batch, b) <==> ChangedBy(History(obs), b)
    ensures EndOf(obs + batch, b) == None
  {
    EndOfMeans(obs + batch, b);
    forall p ensures Lag(obs + batch, b, p) <==> Lag(obs, b, p) {
    }
    if o :| o in obs && o.customer == b.customer {
      var p := LatestExists(obs, b.customer, b.at - 1, o);
      var v := CurrentRow(obs, p);
      assert forall q :: Lag(obs, b, q) ==> q == p;
    } else {
      assert forall v :: v in History(obs) ==> exists o :: o in obs && v.customer == o.customer;
    }
  }

  lemma OldEnds(obs: set<Observation>, batch: set<Observation>, o: Observation)
    requires Unambiguous(obs) && LaterBatch(obs, batch) && Starts(obs, o)
    ensures EndOf(obs, o) != None ==> EndOf(obs + batch, o) == EndOf(obs, o)
    ensures EndOf(obs, o) == None ==> forall b :: b in batch && b.customer == o.customer && ChangedBy(History(obs), b) ==> EndOf(obs + batch, o) == Some(b.at)
    ensures EndOf(obs, o) == None && (forall b :: b in batch && b.customer == o.customer ==> !ChangedBy(History(obs), b)) ==> EndOf(obs + batch, o) == None
  {
    EndOfMeans(obs, o);
    EndOfMeans(obs + batch, o);
    forall m | m in obs ensures Starts(obs + batch, m) <==> Starts(obs, m) {
      OldStartsKept(obs, batch, m);
    }
    forall b | b in batch ensures Starts(obs + batch, b) <==> ChangedBy(History(obs), b) {
      NewStarts(obs, batch, b);
    }
    if EndOf(obs, o) != None {
      var n :| NextStart(obs, o, n) && n.at == EndOf(obs, o).value;
      assert NextStart(obs + batch, o, n);
    } else {
      forall b | b in batch && b.customer == o.customer && ChangedBy(History(obs), b)
        ensures EndOf(obs + batch, o) == Some(b.at)
      {
        assert NextStart(obs + batch, o, b);
      }
    }
  }

  function Closed(v: Version, at: Instant): Version {
    v.(validTo := Some(at), isCurrent := false)
  }

  /** Rows that a batch leaves as they are. */
  ghost predicate KeptBy(table: set<Version>, batch: set<Observation>, w: Version) {
    w in table && (w.isCurrent ==> forall b :: b in batch && b.customer == w.customer ==> !ChangedBy(table, b))
  }

  /** v is the current row of a customer that b changes. */
  ghost predicate ClosedBy(table: set<Version>, batch: set<Observation>, v: Version, b: Observation) {
    v in table && v.isCurrent && b in batch && v.customer == b.customer && ChangedBy(table, b)
  }

  /** The table after a batch, row by row: kept rows, closed rows, and a new current row a change. */
  ghost predicate InForward(table: set<Version>, batch: set<Observation>, w: Version) {
    || KeptBy(table, batch, w)
    || (exists v, b :: ClosedBy(table, batch, v, b) && w == Closed(v, b.at))
    || (exists b :: b in batch && ChangedBy(table, b) && w == VersionFrom(b, None))
  }

  lemma OldRowForward(obs: set<Observation>, batch: set<Observation>, o: Observation)
    requires Unambiguous(obs) && LaterBatch(obs, batch) && Starts(obs, o)
    ensures Starts(obs + batch, o)
    ensures InForward(History(obs), batch, VersionFrom(o, EndOf(obs + batch, o)))
    ensures KeptBy(History(obs), batch, VersionFrom(o, EndOf(obs, o))) ==> EndOf(obs + batch, o) == EndOf(obs, o)
    ensures forall b :: ClosedBy(History(obs), batch, VersionFrom(o, EndOf(obs, o)), b) ==> EndOf(obs + batch, o) == Some(b.at)
  {
    OldStartsKept(obs, batch, o);
    OldEnds(obs, batch, o);
    var v := VersionFrom(o, EndOf(obs, o));
    assert v in History(obs);
    if b :| ClosedBy(History(obs), batch, v, b) {
      assert VersionFrom(o, EndOf(obs + batch, o)) == Closed(v, b.at);
    } else {
      forall b | b in batch && b.customer == v.customer && v.isCurrent ensures !ChangedBy(History(obs), b) {
        assert !ClosedBy(History(obs), batch, v, b);
      }
    }
  }

  /** Forward refines rebuild, on meanings: reading the batch into the history of what was known
      gives the history of everything known. */
  lemma ForwardHistory(obs: set<Observation>, batch: set<Observation>, w: Version)
    requires Unambiguous(obs) && LaterBatch(obs, batch)
    ensures w in History(obs + batch) <==> InForward(History(obs), batch, w)
  {
    if w in History(obs + batch) {
      var o :| o in obs + batch && Starts(obs + batch, o) && w == VersionFrom(o, EndOf(obs + batch, o));
      if o in batch {
        NewStarts(obs, batch, o);
      } else {
        OldStartsKept(obs, batch, o);
        OldRowForward(obs, batch, o);
      }
    }
    if KeptBy(History(obs), batch, w) {
      var o :| o in obs && Starts(obs, o) && w == VersionFrom(o, EndOf(obs, o));
      OldRowForward(obs, batch, o);
    } else if v, b :| ClosedBy(History(obs), batch, v, b) && w == Closed(v, b.at) {
      var o :| o in obs && Starts(obs, o) && v == VersionFrom(o, EndOf(obs, o));
      OldRowForward(obs, batch, o);
    } else if b :| b in batch && ChangedBy(History(obs), b) && w == VersionFrom(b, None) {
      NewStarts(obs, batch, b);
    }
  }
}
