/** Daily gold: payments are aggregated per order before they meet the orders, then summed a day. */
module DailyGold {
  import opened Types
  import opened Frames
  import opened MergeStatement
  import opened Sums
  import opened SilverJob
  import opened SilverOrders
  import opened SilverPayments

  const DAY: Instant := 24 * 3600 * 1_000_000

  datatype DailyRow = DailyRow(
    batch: Option<BatchId>, day: Option<int>, orderCount: int, buyerCount: int, ordered: int, revenue: int,
    captured: int, noncaptured: int, rejected: int, missing: int, late: int)

  datatype Enriched = Enriched(order: ValidOrder, day: int, valid: int, captured: int, noncaptured: int, revenue: int, rejected: int, missing: int)

  datatype GoldError = EmptyOrIncomplete | OrdersNotReconciled | PaymentsNotReconciled | DuplicateOrders | OrphanedPayments | UnvalidatedReference
    | NoValidDays | ExistingRowsDiffer | PostCondition

  // ---------------------------------------------------------------- the summary

  function One<T>(x: T): int { 1 }
  function CapturedOne(p: ValidPayment): int { if p.status == Captured then 1 else 0 }
  function NoncapturedOne(p: ValidPayment): int { if p.status != Captured then 1 else 0 }
  function CapturedAmount(p: ValidPayment): int { if p.status == Captured then p.amount else 0 }
  function PaymentOrder(p: ValidPayment): Text { p.orderId }
  function RejectOrder(j: PaymentReject): Text { j.row.orderId }

  /** A row of the per-order frames; the reject frame uses the first count alone. */
  datatype Totals = Totals(orderId: Text, count: int, captured: int, noncaptured: int, revenue: int)

  function TotalsOf(payments: seq<ValidPayment>, id: Text): Totals {
    Totals(id, SumWhere(payments, PaymentOrder, id, One), SumWhere(payments, PaymentOrder, id, CapturedOne),
      SumWhere(payments, PaymentOrder, id, NoncapturedOne), SumWhere(payments, PaymentOrder, id, CapturedAmount))
  }

  function RejectTotalsOf(rejects: seq<PaymentReject>, id: Text): Totals {
    Totals(id, SumWhere(rejects, RejectOrder, id, One), 0, 0, 0)
  }

  function ValidByOrder(payments: seq<ValidPayment>): seq<Totals> {
    Map(Distinct(Map(payments, PaymentOrder)), (id: Text) => TotalsOf(payments, id))
  }

  function RejectedByOrder(rejects: seq<PaymentReject>): seq<Totals> {
    Map(Distinct(Map(rejects, RejectOrder)), (id: Text) => RejectTotalsOf(rejects, id))
  }

  /** orders LEFT JOIN totals ON order_id, with missing measures filled with zero. */
  function JoinTotals<L>(left: seq<L>, totals: seq<Totals>, idOf: L -> Text): seq<(L, Totals)> {
    if left == [] then []
    else
      var id := idOf(left[0]);
      var partners := Filter(totals, (t: Totals) => id != Null && t.orderId == id);
      (if partners == [] then [(left[0], Totals(id, 0, 0, 0, 0))] else Map(partners, (t: Totals) => (left[0], t))) + JoinTotals(left[1..], totals, idOf)
  }

  function OrderIdOf(o: ValidOrder): Text { o.orderId }
  function JoinedIdOf(r: (ValidOrder, Totals)): Text { r.0.orderId }

  function Enrich(r: ((ValidOrder, Totals), Totals)): Enriched {
    var (o, v, j) := (r.0.0, r.0.1, r.1);
    Enriched(o, o.eventAt / DAY, v.count, v.captured, v.noncaptured, v.revenue, j.count, if v.count + j.count == 0 then 1 else 0)
  }

  function EnrichedRows(orders: seq<ValidOrder>, payments: seq<ValidPayment>, rejects: seq<PaymentReject>): seq<Enriched> {
    Map(JoinTotals(JoinTotals(orders, ValidByOrder(payments), OrderIdOf), RejectedByOrder(rejects), JoinedIdOf), Enrich)
  }

  function GroupOf(e: Enriched): (BatchId, int) { (e.order.batch, e.day) }

  function DistinctGroups(groups: seq<(BatchId, int)>): (r: seq<(BatchId, int)>)
    ensures NoDuplicates(r)
    ensures forall g :: g in r <==> g in groups
  {
    if groups == [] then []
    else
      var rest := DistinctGroups(groups[1..]);
      if groups[0] in rest then rest else [groups[0]] + rest
  }

  /** The values of a column in one group, one a row. */
  function ColumnWhere<T, K(==)>(s: seq<T>, key: T -> K, k: K, column: T -> Text): seq<Text> {
    if s == [] then []
    else if key(s[0]) == k then [column(s[0])] + ColumnWhere(s[1..], key, k, column)
    else ColumnWhere(s[1..], key, k, column)
  }

  /** count(DISTINCT column), which skips nulls. */
  function CountDistinct(ids: seq<Text>): nat {
    |set id | id in ids && id != Null|
  }

  function BuyerOf(e: Enriched): Text { e.order.customerId }
  function CustomerOf(o: ValidOrder): Text { o.customerId }

  function DayRow(enriched: seq<Enriched>, g: (BatchId, int)): DailyRow {
    DailyRow(Some(g.0), Some(g.1),
      SumWhere(enriched, GroupOf, g, One), CountDistinct(ColumnWhere(enriched, GroupOf, g, BuyerOf)),
      SumWhere(enriched, GroupOf, g, (e: Enriched) => e.order.total), SumWhere(enriched, GroupOf, g, RevenueOf),
      SumWhere(enriched, GroupOf, g, CapturedOf), SumWhere(enriched, GroupOf, g, NoncapturedOf),
      SumWhere(enriched, GroupOf, g, RejectedOf), SumWhere(enriched, GroupOf, g, (e: Enriched) => e.missing),
      SumWhere(enriched, GroupOf, g, (e: Enriched) => if e.order.isLate then 1 else 0))
  }

  function RevenueOf(e: Enriched): int { e.revenue }
  function CapturedOf(e: Enriched): int { e.captured }
  function NoncapturedOf(e: Enriched): int { e.noncaptured }
  function RejectedOf(e: Enriched): int { e.rejected }

  function Summarize(orders: seq<ValidOrder>, payments: seq<ValidPayment>, rejects: seq<PaymentReject>): seq<DailyRow> {
    var enriched := EnrichedRows(orders, payments, rejects);
    Map(DistinctGroups(Map(enriched, GroupOf)), (g: (BatchId, int)) => DayRow(enriched, g))
  }

  // ---------------------------------------------------------------- no fan-out

  lemma {:induction false} PartnersOf(keys: seq<Text>, totals: seq<Totals>, id: Text)
    requires NoDuplicates(keys) && |totals| == |keys| && forall i :: 0 <= i < |keys| ==> totals[i].orderId == keys[i]
    ensures var partners := Filter(totals, (t: Totals) => id != Null && t.orderId == id);
      if id != Null && id in keys then exists i :: 0 <= i < |keys| && keys[i] == id && partners == [totals[i]] else partners == []
  {
    if keys != [] {
      PartnersOf(keys[1..], totals[1..], id);
      assert keys[0] !in keys[1..];
      if id != Null && id in keys {
        if keys[0] == id {
          assert Filter(totals[1..], (t: Totals) => id != Null && t.orderId == id) == [];
        } else {
          var i :| 0 <= i < |keys[1..]| && keys[1..][i] == id && Filter(totals[1..], (t: Totals) => id != Null && t.orderId == id) == [totals[1..][i]];
          assert keys[i + 1] == id && totals[i + 1] == totals[1..][i];
        }
      }
    }
  }

  /** A join with one row an order keeps every left row once, with the totals of its order. */
  lemma {:induction false} TotalsJoinOnce<L>(left: seq<L>, keys: seq<Text>, totals: seq<Totals>, idOf: L -> Text)
    requires NoDuplicates(keys) && |totals| == |keys| && forall i :: 0 <= i < |keys| ==> totals[i].orderId == keys[i]
    ensures var joined := JoinTotals(left, totals, idOf);
      |joined| == |left| && forall i :: 0 <= i < |left| ==>
        joined[i].0 == left[i] &&
        (if idOf(left[i]) != Null && idOf(left[i]) in keys then joined[i].1 in totals && joined[i].1.orderId == idOf(left[i])
         else joined[i].1 == Totals(idOf(left[i]), 0, 0, 0, 0))
  {
    if left != [] {
      TotalsJoinOnce(left[1..], keys, totals, idOf);
      PartnersOf(keys, totals, idOf(left[0]));
    }
  }

  /** What the nested loop over orders and payments would compute for one order. */
  function OrderReference(o: ValidOrder, payments: seq<ValidPayment>, rejects: seq<PaymentReject>): Enriched {
    var v := TotalsOf(payments, o.orderId);
    var rejected := SumWhere(rejects, RejectOrder, o.orderId, One);
    Enriched(o, o.eventAt / DAY, v.count, v.captured, v.noncaptured, v.revenue, rejected, if v.count + rejected == 0 then 1 else 0)
  }

  lemma MissingTotals(payments: seq<ValidPayment>, id: Text)
    requires id !in Map(payments, PaymentOrder)
    ensures TotalsOf(payments, id) == Totals(id, 0, 0, 0, 0)
  {
    forall p | p in payments ensures PaymentOrder(p) != id {
      var i :| 0 <= i < |payments| && payments[i] == p;
      assert Map(payments, PaymentOrder)[i] == PaymentOrder(p);
    }
    NoRowsNoSum(payments, PaymentOrder, id, One);
    NoRowsNoSum(payments, PaymentOrder, id, CapturedOne);
    NoRowsNoSum(payments, PaymentOrder, id, NoncapturedOne);
    NoRowsNoSum(payments, PaymentOrder, id, CapturedAmount);
  }

  lemma MissingRejects(rejects: seq<PaymentReject>, id: Text)
    requires id !in Map(rejects, RejectOrder)
    ensures RejectTotalsOf(rejects, id) == Totals(id, 0, 0, 0, 0)
  {
    forall j | j in rejects ensures RejectOrder(j) != id {
      var i :| 0 <= i < |rejects| && rejects[i] == j;
      assert Map(rejects, RejectOrder)[i] == RejectOrder(j);
    }
    NoRowsNoSum(rejects, RejectOrder, id, One);
  }

  /** Aggregating before the joins causes no fan-out: enriched row i is order i with the sums that
      a nested loop finds. */
  lemma EnrichedIsReference(orders: seq<ValidOrder>, payments: seq<ValidPayment>, rejects: seq<PaymentReject>)
    requires forall o :: o in orders ==> o.orderId != Null
    ensures var enriched := EnrichedRows(orders, payments, rejects);
      |enriched| == |orders| && forall i :: 0 <= i < |orders| ==> enriched[i] == OrderReference(orders[i], payments, rejects)
  {
    var paid, refused := Distinct(Map(payments, PaymentOrder)), Distinct(Map(rejects, RejectOrder));
    var valid, rejected := ValidByOrder(payments), RejectedByOrder(rejects);
    var first := JoinTotals(orders, valid, OrderIdOf);
    TotalsJoinOnce(orders, paid, valid, OrderIdOf);
    TotalsJoinOnce(first, refused, rejected, JoinedIdOf);
    var second := JoinTotals(first, rejected, JoinedIdOf);
    forall i | 0 <= i < |orders|
      ensures second[i] == ((orders[i], TotalsOf(payments, orders[i].orderId)), RejectTotalsOf(rejects, orders[i].orderId))
    {
      var id := orders[i].orderId;
      assert orders[i] in orders;
      if id !in paid {
        MissingTotals(payments, id);
      }
      if id !in refused {
        MissingRejects(rejects, id);
      }
    }
  }

  function OrderGroup(o: ValidOrder): (BatchId, int) { (o.batch, o.eventAt / DAY) }
  function TotalOf(o: ValidOrder): int { o.total }
  function LateOne(o: ValidOrder): int { if o.isLate then 1 else 0 }

  /** One day by grouping the orders, and for each order the payments that name it. */
  function DayLoop(orders: seq<ValidOrder>, payments: seq<ValidPayment>, rejects: seq<PaymentReject>, g: (BatchId, int)): DailyRow {
    DailyRow(Some(g.0), Some(g.1),
      SumWhere(orders, OrderGroup, g, One),
      CountDistinct(ColumnWhere(orders, OrderGroup, g, CustomerOf)),
      SumWhere(orders, OrderGroup, g, TotalOf),
      SumWhere(orders, OrderGroup, g, (o: ValidOrder) => SumWhere(payments, PaymentOrder, o.orderId, CapturedAmount)),
      SumWhere(orders, OrderGroup, g, (o: ValidOrder) => SumWhere(payments, PaymentOrder, o.orderId, CapturedOne)),
      SumWhere(orders, OrderGroup, g, (o: ValidOrder) => SumWhere(payments, PaymentOrder, o.orderId, NoncapturedOne)),
      SumWhere(orders, OrderGroup, g, (o: ValidOrder) => SumWhere(rejects, RejectOrder, o.orderId, One)),
      SumWhere(orders, OrderGroup, g, (o: ValidOrder) =>
        if SumWhere(payments, PaymentOrder, o.orderId, One) + SumWhere(rejects, RejectOrder, o.orderId, One) == 0 then 1 else 0),
      SumWhere(orders, OrderGroup, g, LateOne))
  }

  lemma {:induction false} GroupSumOfEqual<S, T, K>(s: seq<S>, t: seq<T>, key: S -> K, otherKey: T -> K, k: K, f: S -> int, g: T -> int)
    requires |s| == |t| && forall i :: 0 <= i < |s| ==> f(s[i]) == g(t[i]) && key(s[i]) == otherKey(t[i])
    ensures SumWhere(s, key, k, f) == SumWhere(t, otherKey, k, g)
  {
    if s != [] {
      GroupSumOfEqual(s[1..], t[1..], key, otherKey, k, f, g);
    }
  }

  lemma {:induction false} ColumnOfEqual<S, T, K>(s: seq<S>, t: seq<T>, key: S -> K, otherKey: T -> K, k: K, f: S -> Text, g: T -> Text)
    requires |s| == |t| && forall i :: 0 <= i < |s| ==> f(s[i]) == g(t[i]) && key(s[i]) == otherKey(t[i])
    ensures ColumnWhere(s, key, k, f) == ColumnWhere(t, otherKey, k, g)
  {
    if s != [] {
      ColumnOfEqual(s[1..], t[1..], key, otherKey, k, f, g);
    }
  }

  lemma OrderColumnsAreLoop(orders: seq<ValidOrder>, e: seq<Enriched>, payments: seq<ValidPayment>, rejects: seq<PaymentReject>, g: (BatchId, int))
    requires |e| == |orders| && forall i :: 0 <= i < |orders| ==> e[i] == OrderReference(orders[i], payments, rejects)
    ensures var r, d := DayRow(e, g), DayLoop(orders, payments, rejects, g);
      && r.orderCount == d.orderCount && r.buyerCount == d.buyerCount && r.ordered == d.ordered && r.late == d.late
  {
    GroupSumOfEqual(e, orders, GroupOf, OrderGroup, g, One, One);
    ColumnOfEqual(e, orders, GroupOf, OrderGroup, g, BuyerOf, CustomerOf);
    GroupSumOfEqual(e, orders, GroupOf, OrderGroup, g, (e: Enriched) => e.order.total, TotalOf);
    GroupSumOfEqual(e, orders, GroupOf, OrderGroup, g, (e: Enriched) => if e.order.isLate then 1 else 0, LateOne);
  }

  lemma PaymentColumnsAreLoop(orders: seq<ValidOrder>, e: seq<Enriched>, payments: seq<ValidPayment>, rejects: seq<PaymentReject>, g: (BatchId, int))
    requires |e| == |orders| && forall i :: 0 <= i < |orders| ==> e[i] == OrderReference(orders[i], payments, rejects)
    ensures var r, d := DayRow(e, g), DayLoop(orders, payments, rejects, g);
      && r.revenue == d.revenue && r.captured == d.captured && r.noncaptured == d.noncaptured && r.rejected == d.rejected && r.missing == d.missing
  {
    GroupSumOfEqual(e, orders, GroupOf, OrderGroup, g, RevenueOf, (o: ValidOrder) => SumWhere(payments, PaymentOrder, o.orderId, CapturedAmount));
    GroupSumOfEqual(e, orders, GroupOf, OrderGroup, g, CapturedOf, (o: ValidOrder) => SumWhere(payments, PaymentOrder, o.orderId, CapturedOne));
    GroupSumOfEqual(e, orders, GroupOf, OrderGroup, g, NoncapturedOf, (o: ValidOrder) => SumWhere(payments, PaymentOrder, o.orderId, NoncapturedOne));
    GroupSumOfEqual(e, orders, GroupOf, OrderGroup, g, RejectedOf, (o: ValidOrder) => SumWhere(rejects, RejectOrder, o.orderId, One));
    GroupSumOfEqual(e, orders, GroupOf, OrderGroup, g, (e: Enriched) => e.missing, (o: ValidOrder) =>
        if SumWhere(payments, PaymentOrder, o.orderId, One) + SumWhere(rejects, RejectOrder, o.orderId, One) == 0 then 1 else 0);
  }

  lemma DayIsLoop(orders: seq<ValidOrder>, payments: seq<ValidPayment>, rejects: seq<PaymentReject>, g: (BatchId, int))
    requires forall o :: o in orders ==> o.orderId != Null
    ensures DayRow(EnrichedRows(orders, payments, rejects), g) == DayLoop(orders, payments, rejects, g)
  {
    var e := EnrichedRows(orders, payments, rejects);
    EnrichedIsReference(orders, payments, rejects);
    OrderColumnsAreLoop(orders, e, payments, rejects, g);
    PaymentColumnsAreLoop(orders, e, payments, rejects, g);
  }

  lemma SummaryIsLoop(orders: seq<ValidOrder>, payments: seq<ValidPayment>, rejects: seq<PaymentReject>)
    requires forall o :: o in orders ==> o.orderId != Null
    ensures Summarize(orders, payments, rejects) ==
      Map(DistinctGroups(Map(orders, OrderGroup)), (g: (BatchId, int)) => DayLoop(orders, payments, rejects, g))
  {
    EnrichedIsReference(orders, payments, rejects);
    assert Map(EnrichedRows(orders, payments, rejects), GroupOf) == Map(orders, OrderGroup);
    forall g ensures DayRow(EnrichedRows(orders, payments, rejects), g) == DayLoop(orders, payments, rejects, g) {
      DayIsLoop(orders, payments, rejects, g);
    }
  }

  // ---------------------------------------------------------------- the reference

  const MICROSECONDS_A_DAY: int := 86_400_000_000

  /** The order is of the batch and was placed on that day, counted from the epoch. */
  predicate OnDay(o: ValidOrder, batch: BatchId, day: int) {
    o.batch == batch && day * MICROSECONDS_A_DAY <= o.eventAt < (day + 1) * MICROSECONDS_A_DAY
  }

  function OrdersOn(orders: seq<ValidOrder>, g: (BatchId, int)): seq<ValidOrder> {
    Filter(orders, (o: ValidOrder) => OnDay(o, g.0, g.1))
  }

  function CapturedFor(payments: seq<ValidPayment>, id: Text): seq<ValidPayment> {
    Filter(payments, (p: ValidPayment) => p.orderId == id && p.status == Captured)
  }

  function NotCapturedFor(payments: seq<ValidPayment>, id: Text): seq<ValidPayment> {
    Filter(payments, (p: ValidPayment) => p.orderId == id && p.status != Captured)
  }

  function RejectedFor(rejects: seq<PaymentReject>, id: Text): seq<PaymentReject> {
    Filter(rejects, (j: PaymentReject) => j.row.orderId == id)
  }

  function AmountOf(p: ValidPayment): int { p.amount }

  /** What a nested loop over the orders of one day and the payments that name them finds. */
  function DayReference(orders: seq<ValidOrder>, payments: seq<ValidPayment>, rejects: seq<PaymentReject>, g: (BatchId, int)): DailyRow {
    var placed := OrdersOn(orders, g);
    DailyRow(
      batch := Some(g.0),
      day := Some(g.1),
      orderCount := |placed|,
      buyerCount := |set o | o in placed && o.customerId != Null :: o.customerId|,
      ordered := Sum(placed, (o: ValidOrder) => o.total),
      revenue := Sum(placed, (o: ValidOrder) => Sum(CapturedFor(payments, o.orderId), AmountOf)),
      captured := Sum(placed, (o: ValidOrder) => |CapturedFor(payments, o.orderId)|),
      noncaptured := Sum(placed, (o: ValidOrder) => |NotCapturedFor(payments, o.orderId)|),
      rejected := Sum(placed, (o: ValidOrder) => |RejectedFor(rejects, o.orderId)|),
      missing := Sum(placed, (o: ValidOrder) => if Unpaid(payments, rejects, o.orderId) then 1 else 0),
      late := |Filter(placed, (o: ValidOrder) => o.isLate)|)
  }

  /** Neither a valid nor a rejected payment names the order. */
  predicate Unpaid(payments: seq<ValidPayment>, rejects: seq<PaymentReject>, id: Text) {
    (forall p | p in payments :: p.orderId != id) && (forall j | j in rejects :: j.row.orderId != id)
  }

  lemma {:induction false} SameFilter<T(!new)>(s: seq<T>, p: T -> bool, q: T -> bool)
    requires forall x :: x in s ==> (p(x) <==> q(x))
    ensures Filter(s, p) == Filter(s, q)
  {
    if s != [] {
      assert s[0] in s;
      SameFilter(s[1..], p, q);
    }
  }

  lemma DayOfOrder(o: ValidOrder, g: (BatchId, int))
    ensures OrderGroup(o) == g <==> OnDay(o, g.0, g.1)
  {
  }

  /** A column summed over a group is summed over the orders of the day. */
  lemma ColumnOn(orders: seq<ValidOrder>, g: (BatchId, int), f: ValidOrder -> int, h: ValidOrder -> int)
    requires forall o :: f(o) == h(o)
    ensures SumWhere(orders, OrderGroup, g, f) == Sum(OrdersOn(orders, g), h)
  {
    SumWhereIsFiltered(orders, OrderGroup, g, f);
    forall o ensures OrderGroup(o) == g <==> OnDay(o, g.0, g.1) {
      DayOfOrder(o, g);
    }
    SameFilter(orders, (o: ValidOrder) => OrderGroup(o) == g, (o: ValidOrder) => OnDay(o, g.0, g.1));
    SumOfEqual(OrdersOn(orders, g), OrdersOn(orders, g), f, h);
  }

  /** What a group collects of the rows to keep. */
  lemma {:induction false} KeptWhere<T(!new), K>(s: seq<T>, key: T -> K, k: K, f: T -> int, keep: T -> bool, h: T -> int)
    requires forall x :: x in s ==> f(x) == if keep(x) then h(x) else 0
    ensures SumWhere(s, key, k, f) == Sum(Filter(s, (x: T) => key(x) == k && keep(x)), h)
  {
    if s != [] {
      assert s[0] in s;
      KeptWhere(s[1..], key, k, f, keep, h);
    }
  }

  lemma PaymentsOf(payments: seq<ValidPayment>, id: Text)
    ensures SumWhere(payments, PaymentOrder, id, CapturedAmount) == Sum(CapturedFor(payments, id), AmountOf)
    ensures SumWhere(payments, PaymentOrder, id, CapturedOne) == |CapturedFor(payments, id)|
    ensures SumWhere(payments, PaymentOrder, id, NoncapturedOne) == |NotCapturedFor(payments, id)|
  {
    var captured, other := (p: ValidPayment) => p.status == Captured, (p: ValidPayment) => p.status != Captured;
    KeptWhere(payments, PaymentOrder, id, CapturedAmount, captured, AmountOf);
    KeptWhere(payments, PaymentOrder, id, CapturedOne, captured, One);
    KeptWhere(payments, PaymentOrder, id, NoncapturedOne, other, One);
    SameFilter(payments, (p: ValidPayment) => PaymentOrder(p) == id && captured(p), (p: ValidPayment) => p.orderId == id && p.status == Captured);
    SameFilter(payments, (p: ValidPayment) => PaymentOrder(p) == id && other(p), (p: ValidPayment) => p.orderId == id && p.status != Captured);
    SumOfOnes(CapturedFor(payments, id));
    SumOfOnes(NotCapturedFor(payments, id));
  }

  lemma RejectsOf(rejects: seq<PaymentReject>, id: Text)
    ensures SumWhere(rejects, RejectOrder, id, One) == |RejectedFor(rejects, id)|
  {
    SumWhereIsFiltered(rejects, RejectOrder, id, One);
    SameFilter(rejects, (j: PaymentReject) => RejectOrder(j) == id, (j: PaymentReject) => j.row.orderId == id);
    SumOfOnes(RejectedFor(rejects, id));
  }

  lemma {:induction false} NoneOf<T(!new), K>(s: seq<T>, key: T -> K, k: K)
    ensures SumWhere(s, key, k, One) >= 0
    ensures SumWhere(s, key, k, One) == 0 <==> forall x :: x in s ==> key(x) != k
  {
    if s != [] {
      NoneOf(s[1..], key, k);
      assert s[0] in s && forall x :: x in s <==> x == s[0] || x in s[1..];
    }
  }

  lemma MissingMeans(payments: seq<ValidPayment>, rejects: seq<PaymentReject>, id: Text)
    ensures SumWhere(payments, PaymentOrder, id, One) + SumWhere(rejects, RejectOrder, id, One) == 0 <==> Unpaid(payments, rejects, id)
  {
    NoneOf(payments, PaymentOrder, id);
    NoneOf(rejects, RejectOrder, id);
  }

  lemma {:induction false} ColumnHas<T(!new), K>(s: seq<T>, key: T -> K, k: K, column: T -> Text)
    ensures forall id :: id in ColumnWhere(s, key, k, column) <==> exists x :: x in s && key(x) == k && column(x) == id
  {
    if s != [] {
      ColumnHas(s[1..], key, k, column);
      assert forall x :: x in s <==> x == s[0] || x in s[1..];
    }
  }

  lemma BuyersOn(orders: seq<ValidOrder>, g: (BatchId, int))
    ensures CountDistinct(ColumnWhere(orders, OrderGroup, g, CustomerOf)) ==
      |set o | o in OrdersOn(orders, g) && o.customerId != Null :: o.customerId|
  {
    var column := ColumnWhere(orders, OrderGroup, g, CustomerOf);
    ColumnHas(orders, OrderGroup, g, CustomerOf);
    forall o ensures OrderGroup(o) == g <==> OnDay(o, g.0, g.1) {
      DayOfOrder(o, g);
    }
    var counted := set id | id in column && id != Null;
    var buyers := set o | o in OrdersOn(orders, g) && o.customerId != Null :: o.customerId;
    forall id ensures id in counted <==> id in buyers {
      if id in counted {
        var o :| o in orders && OrderGroup(o) == g && CustomerOf(o) == id;
        assert o in OrdersOn(orders, g);
      }
      if id in buyers {
        var o :| o in OrdersOn(orders, g) && o.customerId == id;
        assert o in orders && OrderGroup(o) == g && CustomerOf(o) == id;
      }
    }
    assert counted == buyers;
  }

  lemma LateOn(orders: seq<ValidOrder>, g: (BatchId, int))
    ensures SumWhere(orders, OrderGroup, g, LateOne) == |Filter(OrdersOn(orders, g), (o: ValidOrder) => o.isLate)|
  {
    ColumnOn(orders, g, LateOne, LateOne);
    OnesAreCounted(OrdersOn(orders, g));
  }

  lemma {:induction false} OnesAreCounted(orders: seq<ValidOrder>)
    ensures Sum(orders, LateOne) == |Filter(orders, (o: ValidOrder) => o.isLate)|
  {
    if orders != [] {
      OnesAreCounted(orders[1..]);
    }
  }

  lemma OrdersAreReference(orders: seq<ValidOrder>, payments: seq<ValidPayment>, rejects: seq<PaymentReject>, g: (BatchId, int))
    ensures var loop, day := DayLoop(orders, payments, rejects, g), DayReference(orders, payments, rejects, g);
      && loop.batch == day.batch && loop.day == day.day && loop.orderCount == day.orderCount && loop.buyerCount == day.buyerCount
      && loop.ordered == day.ordered && loop.late == day.late
  {
    ColumnOn(orders, g, One, One);
    SumOfOnes(OrdersOn(orders, g));
    BuyersOn(orders, g);
    ColumnOn(orders, g, TotalOf, (o: ValidOrder) => o.total);
    LateOn(orders, g);
  }

  lemma PaymentsAreReference(orders: seq<ValidOrder>, payments: seq<ValidPayment>, rejects: seq<PaymentReject>, g: (BatchId, int))
    ensures var loop, day := DayLoop(orders, payments, rejects, g), DayReference(orders, payments, rejects, g);
      && loop.revenue == day.revenue && loop.captured == day.captured && loop.noncaptured == day.noncaptured
  {
    forall id
      ensures SumWhere(payments, PaymentOrder, id, CapturedAmount) == Sum(CapturedFor(payments, id), AmountOf)
      ensures SumWhere(payments, PaymentOrder, id, CapturedOne) == |CapturedFor(payments, id)|
      ensures SumWhere(payments, PaymentOrder, id, NoncapturedOne) == |NotCapturedFor(payments, id)|
    {
      PaymentsOf(payments, id);
    }
    ColumnOn(orders, g, (o: ValidOrder) => SumWhere(payments, PaymentOrder, o.orderId, CapturedAmount), (o: ValidOrder) => Sum(CapturedFor(payments, o.orderId), AmountOf));
    ColumnOn(orders, g, (o: ValidOrder) => SumWhere(payments, PaymentOrder, o.orderId, CapturedOne), (o: ValidOrder) => |CapturedFor(payments, o.orderId)|);
    ColumnOn(orders, g, (o: ValidOrder) => SumWhere(payments, PaymentOrder, o.orderId, NoncapturedOne), (o: ValidOrder) => |NotCapturedFor(payments, o.orderId)|);
  }

  lemma RestIsReference(orders: seq<ValidOrder>, payments: seq<ValidPayment>, rejects: seq<PaymentReject>, g: (BatchId, int))
    ensures var loop, day := DayLoop(orders, payments, rejects, g), DayReference(orders, payments, rejects, g);
      loop.rejected == day.rejected && loop.missing == day.missing
  {
    forall id
      ensures SumWhere(rejects, RejectOrder, id, One) == |RejectedFor(rejects, id)|
      ensures SumWhere(payments, PaymentOrder, id, One) + SumWhere(rejects, RejectOrder, id, One) == 0 <==> Unpaid(payments, rejects, id)
    {
      RejectsOf(rejects, id);
      MissingMeans(payments, rejects, id);
    }
    ColumnOn(orders, g, (o: ValidOrder) => SumWhere(rejects, RejectOrder, o.orderId, One), (o: ValidOrder) => |RejectedFor(rejects, o.orderId)|);
    ColumnOn(orders, g,
      (o: ValidOrder) => if SumWhere(payments, PaymentOrder, o.orderId, One) + SumWhere(rejects, RejectOrder, o.orderId, One) == 0 then 1 else 0,
      (o: ValidOrder) => if Unpaid(payments, rejects, o.orderId) then 1 else 0);
  }

  lemma LoopIsReference(orders: seq<ValidOrder>, payments: seq<ValidPayment>, rejects: seq<PaymentReject>, g: (BatchId, int))
    ensures DayLoop(orders, payments, rejects, g) == DayReference(orders, payments, rejects, g)
  {
    OrdersAreReference(orders, payments, rejects, g);
    PaymentsAreReference(orders, payments, rejects, g);
    RestIsReference(orders, payments, rejects, g);
  }

  ghost predicate Lists(daily: seq<DailyRow>, batch: BatchId, day: int) {
    exists r :: r in daily && r.batch == Some(batch) && r.day == Some(day)
  }

  ghost predicate OrderedOn(orders: seq<ValidOrder>, batch: BatchId, day: int) {
    exists o :: o in orders && OnDay(o, batch, day)
  }

  ghost predicate IsReference(orders: seq<ValidOrder>, payments: seq<ValidPayment>, rejects: seq<PaymentReject>, r: DailyRow) {
    r.batch != None && r.day != None && r == DayReference(orders, payments, rejects, (r.batch.value, r.day.value))
  }

  /** The summary has one row for each day on which the batch has an order, and it is what the nested
      loop over that day finds. */
  lemma SummaryIsReference(orders: seq<ValidOrder>, payments: seq<ValidPayment>, rejects: seq<PaymentReject>)
    requires forall o :: o in orders ==> o.orderId != Null
    ensures var daily := Summarize(orders, payments, rejects);
      && DistinctKeys(daily, RowKey) && (forall r :: r in daily ==> IsReference(orders, payments, rejects, r))
      && (forall batch, day :: Lists(daily, batch, day) <==> OrderedOn(orders, batch, day))
  {
    var groups := DistinctGroups(Map(orders, OrderGroup));
    var daily := Summarize(orders, payments, rejects);
    RowsAreReference(orders, payments, rejects);
    forall r | r in daily ensures IsReference(orders, payments, rejects, r) {
      var i :| 0 <= i < |daily| && daily[i] == r;
    }
    forall batch: BatchId, day: int ensures Lists(daily, batch, day) <==> OrderedOn(orders, batch, day) {
      DayIsListed(orders, groups, daily, batch, day);
    }
  }

  lemma RowsAreReference(orders: seq<ValidOrder>, payments: seq<ValidPayment>, rejects: seq<PaymentReject>)
    requires forall o :: o in orders ==> o.orderId != Null
    ensures var groups, daily := DistinctGroups(Map(orders, OrderGroup)), Summarize(orders, payments, rejects);
      && |daily| == |groups|
      && forall i :: 0 <= i < |daily| ==>
        daily[i].batch == Some(groups[i].0) && daily[i].day == Some(groups[i].1) && daily[i] == DayReference(orders, payments, rejects, groups[i])
  {
    var groups := DistinctGroups(Map(orders, OrderGroup));
    SummaryIsLoop(orders, payments, rejects);
    forall i | 0 <= i < |groups| ensures DayLoop(orders, payments, rejects, groups[i]) == DayReference(orders, payments, rejects, groups[i]) {
      LoopIsReference(orders, payments, rejects, groups[i]);
    }
  }

  lemma DayIsListed(orders: seq<ValidOrder>, groups: seq<(BatchId, int)>, daily: seq<DailyRow>, batch: BatchId, day: int)
    requires groups == DistinctGroups(Map(orders, OrderGroup)) && |daily| == |groups|
    requires forall i :: 0 <= i < |daily| ==> daily[i].batch == Some(groups[i].0) && daily[i].day == Some(groups[i].1)
    ensures Lists(daily, batch, day) <==> OrderedOn(orders, batch, day)
  {
    var g := (batch, day);
    if r :| r in daily && r.batch == Some(batch) && r.day == Some(day) {
      var i :| 0 <= i < |daily| && daily[i] == r;
      assert groups[i] in groups && groups[i] == g;
      var k :| 0 <= k < |orders| && Map(orders, OrderGroup)[k] == g;
      DayOfOrder(orders[k], g);
    }
    if o :| o in orders && OnDay(o, batch, day) {
      DayOfOrder(o, g);
      var k :| 0 <= k < |orders| && orders[k] == o;
      assert Map(orders, OrderGroup)[k] == g;
      assert g in Map(orders, OrderGroup) && g in groups;
      var i :| 0 <= i < |groups| && groups[i] == g;
      assert daily[i] in daily;
    }
  }

  // ---------------------------------------------------------------- conservation

  function RowOrders(r: DailyRow): int { r.orderCount }
  function RowRevenue(r: DailyRow): int { r.revenue }
  function RowPayments(r: DailyRow): int { r.captured + r.noncaptured + r.rejected }

  /** What validate_sources establishes before the summary. */
  ghost predicate Validated(orders: seq<ValidOrder>, payments: seq<ValidPayment>, rejects: seq<PaymentReject>) {
    && NoDuplicates(Map(orders, OrderIdOf))
    && (forall o :: o in orders ==> o.orderId != Null)
    && (forall p :: p in payments ==> p.orderId in Map(orders, OrderIdOf))
    && (forall j :: j in rejects ==> j.row.orderId in Map(orders, OrderIdOf))
  }

  /** Summing any enriched measure over the days gives its sum over the orders. */
  lemma DaysConserve(enriched: seq<Enriched>, f: Enriched -> int, column: DailyRow -> int)
    requires forall g :: column(DayRow(enriched, g)) == SumWhere(enriched, GroupOf, g, f)
    ensures var groups := DistinctGroups(Map(enriched, GroupOf));
      Sum(Map(groups, (g: (BatchId, int)) => DayRow(enriched, g)), column) == Sum(enriched, f)
  {
    var groups := DistinctGroups(Map(enriched, GroupOf));
    var rows := Map(groups, (g: (BatchId, int)) => DayRow(enriched, g));
    forall e | e in enriched ensures GroupOf(e) in groups {
      var i :| 0 <= i < |enriched| && enriched[i] == e;
      assert Map(enriched, GroupOf)[i] == GroupOf(e);
    }
    GroupsConserve(groups, enriched, GroupOf, f);
    var g := (k: (BatchId, int)) => column(DayRow(enriched, k));
    SumOfKeyed(groups, enriched, GroupOf, f, g);
    SumOfEqual(rows, groups, column, g);
  }

  /** Summing what each order collects gives the sum over what there was to collect. */
  lemma OrdersCollectAll<T(!new)>(orders: seq<ValidOrder>, enriched: seq<Enriched>, s: seq<T>, key: T -> Text, f: T -> int, measure: Enriched -> int)
    requires NoDuplicates(Map(orders, OrderIdOf)) && forall x :: x in s ==> key(x) in Map(orders, OrderIdOf)
    requires |enriched| == |orders| && forall i :: 0 <= i < |orders| ==> measure(enriched[i]) == SumWhere(s, key, orders[i].orderId, f)
    ensures Sum(enriched, measure) == Sum(s, f)
  {
    var ids := Map(orders, OrderIdOf);
    var g := (id: Text) => SumWhere(s, key, id, f);
    SumOfKeyed(ids, s, key, f, g);
    GroupsConserve(ids, s, key, f);
    SumOfEqual(enriched, ids, measure, g);
  }

  lemma {:induction false} SumOfOnes<T>(s: seq<T>)
    ensures Sum(s, One) == |s|
  {
    if s != [] {
      SumOfOnes(s[1..]);
    }
  }

  function AllCaptured(payments: seq<ValidPayment>): seq<ValidPayment> {
    Filter(payments, (p: ValidPayment) => p.status == Captured)
  }

  lemma {:induction false} CapturedAmounts(payments: seq<ValidPayment>)
    ensures Sum(payments, CapturedAmount) == Sum(AllCaptured(payments), AmountOf)
  {
    if payments != [] {
      CapturedAmounts(payments[1..]);
    }
  }

  /** Daily gold conserves: over all days, orders equal silver orders, captured revenue equals the
      captured valid amounts, and captured, noncaptured and rejected payments together are all the
      payments of the batch. */
  lemma DailyGoldConserves(orders: seq<ValidOrder>, payments: seq<ValidPayment>, rejects: seq<PaymentReject>)
    requires Validated(orders, payments, rejects)
    ensures Sum(Summarize(orders, payments, rejects), RowOrders) == |orders|
    ensures Sum(Summarize(orders, payments, rejects), RowRevenue) == Sum(AllCaptured(payments), AmountOf)
    ensures Sum(Summarize(orders, payments, rejects), RowPayments) == |payments| + |rejects|
  {
    var enriched := EnrichedRows(orders, payments, rejects);
    EnrichedIsReference(orders, payments, rejects);
    DaysConserve(enriched, One, RowOrders);
    SumOfOnes(enriched);
    DaysConserve(enriched, RevenueOf, RowRevenue);
    OrdersCollectAll(orders, enriched, payments, PaymentOrder, CapturedAmount, RevenueOf);
    CapturedAmounts(payments);
    PaymentsConserve(orders, payments, rejects);
  }

  lemma PaymentsConserve(orders: seq<ValidOrder>, payments: seq<ValidPayment>, rejects: seq<PaymentReject>)
    requires Validated(orders, payments, rejects)
    ensures Sum(Summarize(orders, payments, rejects), RowPayments) == |payments| + |rejects|
  {
    var enriched := EnrichedRows(orders, payments, rejects);
    var daily := Summarize(orders, payments, rejects);
    EnrichedIsReference(orders, payments, rejects);
    var captured, noncaptured, rejected := (r: DailyRow) => r.captured, (r: DailyRow) => r.noncaptured, (r: DailyRow) => r.rejected;
    var paid := (r: DailyRow) => r.captured + r.noncaptured;
    SumAdds(daily, captured, noncaptured, paid);
    SumAdds(daily, paid, rejected, RowPayments);
    DaysConserve(enriched, CapturedOf, captured);
    DaysConserve(enriched, NoncapturedOf, noncaptured);
    DaysConserve(enriched, RejectedOf, rejected);
    OrdersCollectAll(orders, enriched, payments, PaymentOrder, CapturedOne, CapturedOf);
    OrdersCollectAll(orders, enriched, payments, PaymentOrder, NoncapturedOne, NoncapturedOf);
    OrdersCollectAll(orders, enriched, rejects, RejectOrder, One, RejectedOf);
    SumAdds(payments, CapturedOne, NoncapturedOne, One);
    SumOfOnes(payments);
    SumOfOnes(rejects);
  }

  // ---------------------------------------------------------------- the job

  datatype Sources = Sources(
    orders: seq<ValidOrder>, orderRejects: seq<OrderReject>, payments: seq<ValidPayment>, paymentRejects: seq<PaymentReject>,
    bronzeOrders: nat, bronzePayments: nat, customerIds: seq<Text>, productIds: seq<Text>)

  predicate AllIn(ids: seq<Text>, known: seq<Text>) {
    forall i | 0 <= i < |ids| :: ids[i] != Null && ids[i] in known
  }

  predicate Repeats(ids: seq<Text>) {
    exists i, j | 0 <= i < j < |ids| :: ids[i] == ids[j]
  }

  /** validate_sources(): the first check that fails. */
  function ValidateSources(s: Sources): Option<GoldError> {
    var ids := Map(s.orders, OrderIdOf);
    if s.orders == [] || s.bronzePayments == 0 then Some(EmptyOrIncomplete)
    else if |s.orders| + |s.orderRejects| != s.bronzeOrders then Some(OrdersNotReconciled)
    else if |s.payments| + |s.paymentRejects| != s.bronzePayments then Some(PaymentsNotReconciled)
    else if Repeats(ids) then Some(DuplicateOrders)
    else if !AllIn(Map(s.payments, PaymentOrder), ids) || !AllIn(Map(s.paymentRejects, RejectOrder), ids) then Some(OrphanedPayments)
    else if !AllIn(Map(s.orders, (o: ValidOrder) => o.customerId), s.customerIds) then Some(UnvalidatedReference)
    else if !AllIn(Map(s.orders, (o: ValidOrder) => o.productId), s.productIds) then Some(UnvalidatedReference)
    else None
  }

  function RowKey(r: DailyRow): (Option<BatchId>, Option<int>) { (r.batch, r.day) }
  function RowIn(batch: BatchId): DailyRow -> bool { (r: DailyRow) => r.batch == Some(batch) }

  function WriteDaily(rows: seq<DailyRow>, batch: BatchId, s: Sources): (seq<DailyRow>, Result<nat, GoldError>) {
    if ValidateSources(s) != None then (rows, Failure(ValidateSources(s).value))
    else
      var daily := Summarize(s.orders, s.payments, s.paymentRejects);
      if daily == [] || exists i | 0 <= i < |daily| :: daily[i].day == None then (rows, Failure(NoValidDays))
      else if !(multiset(Part(rows, RowIn(batch))) <= multiset(daily)) then (rows, Failure(ExistingRowsDiffer))
      else
        var after := InsertMissing(rows, daily, RowKey);
        if multiset(Part(after, RowIn(batch))) != multiset(daily) then (after, Failure(GoldError.PostCondition))
        else (after, Success(|daily|))
  }

  ghost predicate IsOrdered(s: Sources, id: Text) {
    id != Null && exists o :: o in s.orders && o.orderId == id
  }

  /** Both tables are there and reconcile with bronze, orders are distinct, and whatever is referenced
      is in the batch. */
  ghost predicate SourcesAgree(s: Sources) {
    && s.orders != [] && s.bronzePayments > 0
    && |s.orders| + |s.orderRejects| == s.bronzeOrders && |s.payments| + |s.paymentRejects| == s.bronzePayments
    && (forall i, j :: 0 <= i < j < |s.orders| ==> s.orders[i].orderId != s.orders[j].orderId)
    && (forall p :: p in s.payments ==> IsOrdered(s, p.orderId)) && (forall j :: j in s.paymentRejects ==> IsOrdered(s, j.row.orderId))
    && (forall o :: o in s.orders ==> o.customerId != Null && o.customerId in s.customerIds && o.productId != Null && o.productId in s.productIds)
  }

  lemma IdsAre<T>(s: seq<T>, column: T -> Text, id: Text)
    ensures id in Map(s, column) <==> exists x :: x in s && column(x) == id
  {
    if x :| x in s && column(x) == id {
      var i :| 0 <= i < |s| && s[i] == x;
      assert Map(s, column)[i] == id;
    }
    if id in Map(s, column) {
      var i :| 0 <= i < |s| && Map(s, column)[i] == id;
      assert s[i] in s;
    }
  }

  lemma AllInMeans<T(!new)>(s: seq<T>, column: T -> Text, known: seq<Text>)
    ensures AllIn(Map(s, column), known) <==> forall x :: x in s ==> column(x) != Null && column(x) in known
  {
    if AllIn(Map(s, column), known) {
      forall x | x in s ensures column(x) != Null && column(x) in known {
        var i :| 0 <= i < |s| && s[i] == x;
        assert Map(s, column)[i] == column(x);
      }
    }
    if forall x :: x in s ==> column(x) != Null && column(x) in known {
      forall i | 0 <= i < |s| ensures Map(s, column)[i] != Null && Map(s, column)[i] in known {
        assert s[i] in s;
      }
    }
  }

  lemma OrderedMeans(s: Sources, id: Text)
    ensures IsOrdered(s, id) <==> id != Null && id in Map(s.orders, OrderIdOf)
  {
    IdsAre(s.orders, OrderIdOf, id);
  }

  /** The checks pass if and only if the sources agree. */
  lemma ValidateExactly(s: Sources)
    ensures ValidateSources(s) == None <==> SourcesAgree(s)
  {
    AllInMeans(s.payments, PaymentOrder, Map(s.orders, OrderIdOf));
    AllInMeans(s.paymentRejects, RejectOrder, Map(s.orders, OrderIdOf));
    AllInMeans(s.orders, (o: ValidOrder) => o.customerId, s.customerIds);
    AllInMeans(s.orders, (o: ValidOrder) => o.productId, s.productIds);
    forall id ensures IsOrdered(s, id) <==> id != Null && id in Map(s.orders, OrderIdOf) {
      OrderedMeans(s, id);
    }
    RepeatsMeans(s);
  }

  lemma RepeatsMeans(s: Sources)
    ensures Repeats(Map(s.orders, OrderIdOf)) <==> !(forall i, j :: 0 <= i < j < |s.orders| ==> s.orders[i].orderId != s.orders[j].orderId)
  {
    var ids := Map(s.orders, OrderIdOf);
    if i, j :| 0 <= i < j < |s.orders| && s.orders[i].orderId == s.orders[j].orderId {
      assert ids[i] == ids[j];
    }
  }

  lemma ValidatedSources(s: Sources)
    requires ValidateSources(s) == None && forall o :: o in s.orders ==> o.orderId != Null
    ensures Validated(s.orders, s.payments, s.paymentRejects)
  {
  }

  lemma SummaryKeys(orders: seq<ValidOrder>, payments: seq<ValidPayment>, rejects: seq<PaymentReject>, batch: BatchId)
    requires forall o :: o in orders ==> o.orderId != Null && o.batch == batch
    ensures SourceOf(Summarize(orders, payments, rejects), RowKey, RowIn(batch))
    ensures orders != [] ==> Summarize(orders, payments, rejects) != []
  {
    var groups := DistinctGroups(Map(orders, OrderGroup));
    var daily := Summarize(orders, payments, rejects);
    SummaryIsLoop(orders, payments, rejects);
    forall i | 0 <= i < |daily| ensures daily[i].batch == Some(batch) && daily[i].day == Some(groups[i].1) && groups[i].0 == batch {
      assert groups[i] in groups;
      var k :| 0 <= k < |orders| && Map(orders, OrderGroup)[k] == groups[i];
      assert orders[k] in orders;
    }
    if orders != [] {
      assert Map(orders, OrderGroup)[0] in groups;
    }
  }

  lemma FirstDailyRun(rows: seq<DailyRow>, batch: BatchId, s: Sources)
    requires ValidateSources(s) == None && forall o :: o in s.orders ==> o.orderId != Null && o.batch == batch
    requires forall r :: r in rows ==> r.batch != Some(batch)
    ensures var daily := Summarize(s.orders, s.payments, s.paymentRejects);
      && WriteDaily(rows, batch, s) == (rows + daily, Success(|daily|))
      && Part(rows + daily, RowIn(batch)) == daily && Others(rows + daily, RowIn(batch)) == rows
  {
    var daily := Summarize(s.orders, s.payments, s.paymentRejects);
    SummaryKeys(s.orders, s.payments, s.paymentRejects, batch);
    NothingOfBatch(rows, RowIn(batch));
    FirstMerge(rows, daily, RowKey, RowIn(batch));
    forall i | 0 <= i < |daily| ensures daily[i].day != None {
    }
  }

  lemma LaterDailyRun(rows: seq<DailyRow>, batch: BatchId, s: Sources)
    requires ValidateSources(s) == None && forall o :: o in s.orders ==> o.orderId != Null && o.batch == batch
    requires Part(rows, RowIn(batch)) == Summarize(s.orders, s.payments, s.paymentRejects)
    ensures WriteDaily(rows, batch, s) == (rows, Success(|Summarize(s.orders, s.payments, s.paymentRejects)|))
  {
    var daily := Summarize(s.orders, s.payments, s.paymentRejects);
    SummaryKeys(s.orders, s.payments, s.paymentRejects, batch);
    forall k | HasKey(daily, RowKey, k) ensures HasKey(rows, RowKey, k) {
      var i :| 0 <= i < |daily| && RowKey(daily[i]) == k;
      assert daily[i] in Part(rows, RowIn(batch));
      var j :| 0 <= j < |rows| && rows[j] == daily[i];
    }
    RepeatedMerge(rows, daily, RowKey);
    forall i | 0 <= i < |daily| ensures daily[i].day != None {
    }
  }

  /** The job on validated sources: the first run publishes the summary and every later run is a
      replay; both succeed, the batch's rows are the summary, and they account for all its orders
      and all its bronze payments. */
  lemma DailyReplaysSafely(rows: seq<DailyRow>, batch: BatchId, s: Sources)
    requires ValidateSources(s) == None && forall o :: o in s.orders ==> o.orderId != Null && o.batch == batch
    requires forall r :: r in rows ==> r.batch != Some(batch)
    ensures var (once, first) := WriteDaily(rows, batch, s);
      var (twice, second) := WriteDaily(once, batch, s);
      && first.Success? && second.Success? && twice == once
      && Part(once, RowIn(batch)) == Summarize(s.orders, s.payments, s.paymentRejects) && Others(once, RowIn(batch)) == rows
      && Sum(Part(once, RowIn(batch)), RowOrders) == |s.orders|
      && Sum(Part(once, RowIn(batch)), RowPayments) == s.bronzePayments
  {
    FirstDailyRun(rows, batch, s);
    LaterDailyRun(rows + Summarize(s.orders, s.payments, s.paymentRejects), batch, s);
    ValidatedSources(s);
    DailyGoldConserves(s.orders, s.payments, s.paymentRejects);
  }

  // ---------------------------------------------------------------- the table

  /** What the job publishes for a batch. */
  function DailyOf(s: Sources): seq<DailyRow> {
    Summarize(s.orders, s.payments, s.paymentRejects)
  }

  /** Silver rows of one batch that pass the checks of the sources. */
  ghost predicate Publishable(batch: BatchId, s: Sources) {
    ValidateSources(s) == None && forall o :: o in s.orders ==> o.orderId != Null && o.batch == batch
  }

  /** One run on sources of the batch: refused exactly when the table has a row of the batch that the
      summary has not, and otherwise the batch's rows are the summary and no other row changes. */
  lemma DailyExactly(rows: seq<DailyRow>, batch: BatchId, s: Sources)
    requires Publishable(batch, s)
    ensures var (after, result) := WriteDaily(rows, batch, s);
      && (result.Success? <==> multiset(Part(rows, RowIn(batch))) <= multiset(DailyOf(s)))
      && (result.Success? ==> multiset(Part(after, RowIn(batch))) == multiset(DailyOf(s)))
      && (result.Failure? ==> after == rows)
      && Others(after, RowIn(batch)) == Others(rows, RowIn(batch))
  {
    SummaryKeys(s.orders, s.payments, s.paymentRejects, batch);
    forall i | 0 <= i < |DailyOf(s)| ensures DailyOf(s)[i].day != None {
    }
    if multiset(Part(rows, RowIn(batch))) <= multiset(DailyOf(s)) {
      MergeCompletes(rows, DailyOf(s), RowKey, RowIn(batch));
    }
  }

  class DailyTable {
    var rows: seq<DailyRow>

    constructor ()
      ensures rows == []
    {
      rows := [];
    }

    method WriteSelectedBatch(batch: BatchId, s: Sources) returns (result: Result<nat, GoldError>)
      modifies this
      ensures (rows, result) == WriteDaily(old(rows), batch, s)
      ensures ValidateSources(s) != None ==> result == Failure(ValidateSources(s).value) && rows == old(rows)
      ensures Publishable(batch, s) ==> (result.Success? <==> multiset(Part(old(rows), RowIn(batch))) <= multiset(DailyOf(s)))
      ensures Publishable(batch, s) && result.Success? ==>
        && multiset(Part(rows, RowIn(batch))) == multiset(DailyOf(s)) && Others(rows, RowIn(batch)) == Others(old(rows), RowIn(batch))
        && Sum(Part(rows, RowIn(batch)), RowOrders) == |s.orders|
        && Sum(Part(rows, RowIn(batch)), RowRevenue) == Sum(AllCaptured(s.payments), AmountOf)
        && Sum(Part(rows, RowIn(batch)), RowPayments) == s.bronzePayments
      ensures Publishable(batch, s) && result.Failure? ==> rows == old(rows)
    {
      if Publishable(batch, s) {
        DailyExactly(rows, batch, s);
        DailyAccounts(batch, s, Part(WriteDaily(rows, batch, s).0, RowIn(batch)));
      }
      var failed := ValidateSources(s);
      if failed != None { return Failure(failed.value); }
      var daily := Summarize(s.orders, s.payments, s.paymentRejects);
      if daily == [] || exists i | 0 <= i < |daily| :: daily[i].day == None { return Failure(NoValidDays); }
      var before := Part(rows, RowIn(batch));
      if !(multiset(before) <= multiset(daily)) { return Failure(ExistingRowsDiffer); }
      rows := InsertMissing(rows, daily, RowKey);
      if multiset(Part(rows, RowIn(batch))) != multiset(daily) { return Failure(GoldError.PostCondition); }
      result := Success(|daily|);
    }
  }

  /** Rows that are the summary, in any order, account for everything in the batch. */
  lemma DailyAccounts(batch: BatchId, s: Sources, part: seq<DailyRow>)
    requires Publishable(batch, s)
    ensures multiset(part) == multiset(DailyOf(s)) ==>
      && Sum(part, RowOrders) == |s.orders| && Sum(part, RowRevenue) == Sum(AllCaptured(s.payments), AmountOf)
      && Sum(part, RowPayments) == s.bronzePayments
  {
    if multiset(part) == multiset(DailyOf(s)) {
      ValidatedSources(s);
      DailyGoldConserves(s.orders, s.payments, s.paymentRejects);
      SumOfBag(part, DailyOf(s), RowOrders);
      SumOfBag(part, DailyOf(s), RowRevenue);
      SumOfBag(part, DailyOf(s), RowPayments);
    }
  }
}
