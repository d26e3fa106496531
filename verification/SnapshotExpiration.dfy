/** Snapshot expiration as planner and executor run it in rounds: the planner proposes the oldest
    eligible snapshots, the executor checks the plan against the live table and expires them. */
module SnapshotExpiration {
  import opened Types
  import opened Frames
  import opened Paths

  type SnapshotId = nat
  datatype Entry = Entry(id: SnapshotId, at: Instant)

  datatype Policy = Policy(minToKeep: nat, maxToExpire: nat) {
    predicate Valid() {
      minToKeep >= 2 && maxToExpire > 0
    }
  }

  /** What the planner recommends, with the bounds that the executor must check. */
  datatype ExpireAction = ExpireAction(ids: seq<SnapshotId>, maxToExpire: nat, expectedHistory: seq<SnapshotId>, expectedCurrent: SnapshotId)

  datatype Verdict = Deferred | Healthy | Recommend(action: ExpireAction)
  datatype PlanningError = DuplicateIds
  datatype ExecutionError = CurrentChanged | NotApproved | BatchTooLarge | RepeatedIds | HistoryChanged | CurrentTargeted | TargetAbsent

  function Ids(history: seq<Entry>): (r: seq<SnapshotId>)
    ensures |r| == |history| && forall i :: 0 <= i < |r| ==> r[i] == history[i].id
  {
    Map(history, (e: Entry) => e.id)
  }

  // ---------------------------------------------------------------- the planner

  /** The stable sort by commit time. */
  function Insert(e: Entry, ordered: seq<Entry>): seq<Entry> {
    if ordered == [] then [e]
    else if e.at <= ordered[0].at then [e] + ordered
    else [ordered[0]] + Insert(e, ordered[1..])
  }

  function Normalized(history: seq<Entry>): seq<Entry> {
    if history == [] then [] else Insert(history[0], Normalized(history[1..]))
  }

  /** The newest entries, kept whatever their age. */
  function Protected(ordered: seq<Entry>, minToKeep: nat): seq<Entry> {
    if |ordered| <= minToKeep then ordered else ordered[|ordered| - minToKeep..]
  }

  function Candidates(ordered: seq<Entry>, minToKeep: nat, cutoff: Instant): seq<Entry> {
    Filter(ordered, (e: Entry) => e.at < cutoff && e.id !in Ids(Protected(ordered, minToKeep)))
  }

  function Take(s: seq<Entry>, n: nat): seq<Entry> {
    if |s| <= n then s else s[..n]
  }

  function PlanSnapshots(policy: Policy, history: Option<seq<Entry>>, otherReferences: bool, current: SnapshotId, cutoff: Instant)
    : Result<Verdict, PlanningError>
  {
    if history == None || otherReferences then Success(Deferred)
    else if exists i, j | 0 <= i < j < |history.value| :: Ids(history.value)[i] == Ids(history.value)[j] then Failure(DuplicateIds)
    else
      var candidates := Candidates(Normalized(history.value), policy.minToKeep, cutoff);
      if candidates == [] then Success(Healthy)
      else Success(Recommend(ExpireAction(Ids(Take(candidates, policy.maxToExpire)), policy.maxToExpire, Ids(history.value), current)))
  }

  // ---------------------------------------------------------------- the executor

  predicate Repeats(ids: seq<SnapshotId>) {
    exists i, j | 0 <= i < j < |ids| :: ids[i] == ids[j]
  }

  predicate SameIds(a: seq<SnapshotId>, b: seq<SnapshotId>) {
    (forall id | id in a :: id in b) && (forall id | id in b :: id in a)
  }

  predicate Within(a: seq<SnapshotId>, b: seq<SnapshotId>) {
    forall id | id in a :: id in b
  }

  function Expired(history: seq<Entry>, ids: seq<SnapshotId>): seq<Entry> {
    Filter(history, (e: Entry) => e.id !in ids)
  }

  function Execute(history: seq<Entry>, current: SnapshotId, action: ExpireAction, approved: bool): Result<seq<Entry>, ExecutionError> {
    if current != action.expectedCurrent then Failure(CurrentChanged)
    else if !approved then Failure(NotApproved)
    else if action.ids == [] || |action.ids| > action.maxToExpire then Failure(BatchTooLarge)
    else if Repeats(action.ids) then Failure(RepeatedIds)
    else if !SameIds(Ids(history), action.expectedHistory) then Failure(HistoryChanged)
    else if current in action.ids then Failure(CurrentTargeted)
    else if !Within(action.ids, Ids(history)) then Failure(TargetAbsent)
    else Success(Expired(history, action.ids))
  }

  /** _reconcile() for an expiration that leaves data files, manifests and records alone. */
  predicate Reconciled(before: seq<Entry>, after: seq<Entry>, action: ExpireAction) {
    (forall id | id in Ids(after) :: id in Ids(before) && id !in action.ids) &&
    (forall id | id in Ids(before) :: id !in action.ids ==> id in Ids(after)) && |after| < |before|
  }

  // ---------------------------------------------------------------- the sort

  ghost predicate Sorted(s: seq<Entry>) {
    forall i, j :: 0 <= i < j < |s| ==> s[i].at <= s[j].at
  }

  ghost predicate DistinctIds(s: seq<Entry>) {
    forall i, j :: 0 <= i < j < |s| ==> s[i].id != s[j].id
  }

  lemma {:induction false} InsertKeeps(e: Entry, s: seq<Entry>)
    ensures multiset(Insert(e, s)) == multiset(s) + multiset{e}
    ensures forall x :: x in Insert(e, s) <==> x == e || x in s
  {
    if s != [] && s[0].at < e.at {
      InsertKeeps(e, s[1..]);
      assert s == [s[0]] + s[1..];
    }
  }

  lemma {:induction false} InsertSorts(e: Entry, s: seq<Entry>)
    requires Sorted(s)
    ensures Sorted(Insert(e, s))
  {
    if s != [] && s[0].at < e.at {
      var rest := Insert(e, s[1..]);
      InsertSorts(e, s[1..]);
      InsertKeeps(e, s[1..]);
      forall k | 0 <= k < |rest| ensures s[0].at <= rest[k].at {
        assert rest[k] in rest;
      }
    }
  }

  lemma {:induction false} NormalizedSorts(history: seq<Entry>)
    ensures Sorted(Normalized(history)) && multiset(Normalized(history)) == multiset(history)
  {
    if history != [] {
      NormalizedSorts(history[1..]);
      InsertSorts(history[0], Normalized(history[1..]));
      InsertKeeps(history[0], Normalized(history[1..]));
      assert history == [history[0]] + history[1..];
    }
  }

  lemma {:induction false} InsertFilters(e: Entry, s: seq<Entry>, keep: Entry -> bool)
    requires Sorted(s)
    ensures Filter(Insert(e, s), keep) == if keep(e) then Insert(e, Filter(s, keep)) else Filter(s, keep)
  {
    if s == [] {
    } else if e.at <= s[0].at {
      assert Insert(e, s)[1..] == s;
      EarlierGoesFirst(e, Filter(s, keep), s);
    } else {
      InsertFilters(e, s[1..], keep);
      assert Insert(e, s)[1..] == Insert(e, s[1..]);
    }
  }

  lemma EarlierGoesFirst(e: Entry, kept: seq<Entry>, s: seq<Entry>)
    requires Sorted(s) && s != [] && e.at <= s[0].at && forall x :: x in kept ==> x in s
    ensures Insert(e, kept) == [e] + kept
  {
    if kept != [] {
      assert kept[0] in s;
      var i :| 0 <= i < |s| && s[i] == kept[0];
    }
  }

  /** Removing entries before the stable sort or after it is the same. */
  lemma {:induction false} NormalizedFilters(history: seq<Entry>, keep: Entry -> bool)
    ensures Normalized(Filter(history, keep)) == Filter(Normalized(history), keep)
  {
    if history != [] {
      NormalizedFilters(history[1..], keep);
      NormalizedSorts(history[1..]);
      InsertFilters(history[0], Normalized(history[1..]), keep);
    }
  }

  lemma DistinctIdsOfBag(a: seq<Entry>, b: seq<Entry>)
    requires DistinctIds(a) && multiset(a) == multiset(b)
    ensures DistinctIds(b)
  {
    SameBagSameRows(a, b);
    SameBagNoDuplicates(a, b);
    forall i, j | 0 <= i < j < |b| ensures b[i].id != b[j].id {
      assert b[i] in a && b[j] in a;
    }
  }

  // ---------------------------------------------------------------- candidates are the oldest prefix

  /** How many of the oldest entries are old enough and not among the newest minToKeep. */
  function EligibleCount(ordered: seq<Entry>, minToKeep: nat, cutoff: Instant): (n: nat)
    ensures n <= |ordered|
  {
    var unprotected := if |ordered| <= minToKeep then 0 else |ordered| - minToKeep;
    OlderCount(ordered[..unprotected], cutoff)
  }

  function OlderCount(s: seq<Entry>, cutoff: Instant): (n: nat)
    ensures n <= |s|
  {
    if s == [] || s[0].at >= cutoff then 0 else 1 + OlderCount(s[1..], cutoff)
  }

  lemma {:induction false} OlderIsPrefix(s: seq<Entry>, cutoff: Instant)
    requires Sorted(s)
    ensures forall i :: 0 <= i < |s| ==> (s[i].at < cutoff <==> i < OlderCount(s, cutoff))
  {
    if s != [] && s[0].at < cutoff {
      OlderIsPrefix(s[1..], cutoff);
    }
  }

  lemma {:induction false} FilterPrefix(s: seq<Entry>, keep: Entry -> bool, n: nat)
    requires n <= |s| && forall i :: 0 <= i < |s| ==> (keep(s[i]) <==> i < n)
    ensures Filter(s, keep) == s[..n]
  {
    if s != [] {
      if n == 0 {
        FilterNone(s, keep);
      } else {
        FilterPrefix(s[1..], keep, n - 1);
        assert s[..n] == [s[0]] + s[1..][..n - 1];
      }
    }
  }

  lemma {:induction false} FilterSuffix(s: seq<Entry>, keep: Entry -> bool, n: nat)
    requires n <= |s| && forall i :: 0 <= i < |s| ==> (keep(s[i]) <==> n <= i)
    ensures Filter(s, keep) == s[n..]
  {
    if s != [] {
      if n == 0 {
        FilterAll(s, keep);
      } else {
        FilterSuffix(s[1..], keep, n - 1);
        assert s[n..] == s[1..][n - 1..];
      }
    }
  }

  lemma IdsAre(s: seq<Entry>, id: SnapshotId)
    ensures id in Ids(s) <==> exists e :: e in s && e.id == id
  {
  }

  /** In a list with distinct ids, the ids of a slice are those at its positions. */
  lemma SliceIds(s: seq<Entry>, lo: nat, hi: nat, i: nat)
    requires DistinctIds(s) && lo <= hi <= |s| && i < |s|
    ensures s[i].id in Ids(s[lo..hi]) <==> lo <= i < hi
  {
  }

  lemma CandidatesAreOldest(ordered: seq<Entry>, minToKeep: nat, cutoff: Instant)
    requires Sorted(ordered) && DistinctIds(ordered)
    ensures Candidates(ordered, minToKeep, cutoff) == ordered[..EligibleCount(ordered, minToKeep, cutoff)]
  {
    var unprotected := if |ordered| <= minToKeep then 0 else |ordered| - minToKeep;
    var kept := Protected(ordered, minToKeep);
    assert kept == ordered[unprotected..|ordered|];
    OlderIsPrefix(ordered[..unprotected], cutoff);
    forall i | 0 <= i < |ordered| ensures ordered[i].id in Ids(kept) <==> unprotected <= i {
      SliceIds(ordered, unprotected, |ordered|, i);
    }
    FilterPrefix(ordered, (e: Entry) => e.at < cutoff && e.id !in Ids(kept), EligibleCount(ordered, minToKeep, cutoff));
  }

  // ---------------------------------------------------------------- one round

  /** The table after planning from its own state and executing what was recommended, if anything. */
  function Round(policy: Policy, history: seq<Entry>, current: SnapshotId, cutoff: Instant): seq<Entry> {
    var plan := PlanSnapshots(policy, Some(history), false, current, cutoff);
    if plan.Failure? || !plan.value.Recommend? then history
    else
      var r := Execute(history, current, plan.value.action, true);
      if r.Failure? then history else r.value
  }

  ghost predicate IsHealthy(policy: Policy, history: seq<Entry>, current: SnapshotId, cutoff: Instant) {
    PlanSnapshots(policy, Some(history), false, current, cutoff) == Success(Healthy)
  }

  /** The snapshots by age, and how many of the oldest are eligible. */
  function Eligible(policy: Policy, ordered: seq<Entry>, cutoff: Instant): (n: nat)
    ensures n <= |ordered|
  {
    EligibleCount(ordered, policy.minToKeep, cutoff)
  }

  function Selected(policy: Policy, ordered: seq<Entry>, cutoff: Instant): (n: nat)
    ensures n <= Eligible(policy, ordered, cutoff)
  {
    Minimum(Eligible(policy, ordered, cutoff), policy.maxToExpire)
  }

  function Minimum(a: nat, b: nat): nat {
    if a < b then a else b
  }

  lemma NoRepeatedIds(history: seq<Entry>)
    requires DistinctIds(history)
    ensures !Repeats(Ids(history))
  {
  }

  lemma NormalizedFacts(history: seq<Entry>)
    requires DistinctIds(history)
    ensures Sorted(Normalized(history)) && DistinctIds(Normalized(history))
    ensures forall e :: e in Normalized(history) <==> e in history
  {
    NormalizedSorts(history);
    DistinctIdsOfBag(history, Normalized(history));
    SameBagSameRows(history, Normalized(history));
  }

  function ActionFor(policy: Policy, history: seq<Entry>, current: SnapshotId, cutoff: Instant): ExpireAction {
    var ordered := Normalized(history);
    ExpireAction(Ids(ordered[..Selected(policy, ordered, cutoff)]), policy.maxToExpire, Ids(history), current)
  }

  /** The plan names the oldest eligible snapshots, at most the maximum; it is healthy exactly when
      none is eligible. */
  lemma PlanIsOldest(policy: Policy, history: seq<Entry>, current: SnapshotId, cutoff: Instant)
    requires policy.Valid() && DistinctIds(history)
    ensures PlanSnapshots(policy, Some(history), false, current, cutoff) ==
      Success(if Eligible(policy, Normalized(history), cutoff) == 0 then Healthy else Recommend(ActionFor(policy, history, current, cutoff)))
  {
    NormalizedFacts(history);
    NoRepeatedIds(history);
    SelectionIsOldest(policy, Normalized(history), cutoff);
  }

  lemma SelectionIsOldest(policy: Policy, ordered: seq<Entry>, cutoff: Instant)
    requires Sorted(ordered) && DistinctIds(ordered)
    ensures var candidates := Candidates(ordered, policy.minToKeep, cutoff);
      && (candidates == [] <==> Eligible(policy, ordered, cutoff) == 0)
      && Take(candidates, policy.maxToExpire) == ordered[..Selected(policy, ordered, cutoff)]
  {
    CandidatesAreOldest(ordered, policy.minToKeep, cutoff);
  }

  lemma {:induction false} FilterKeepsIds(s: seq<Entry>, keep: Entry -> bool)
    requires DistinctIds(s)
    ensures DistinctIds(Filter(s, keep))
  {
    if s != [] {
      FilterKeepsIds(s[1..], keep);
      assert forall e :: e in s[1..] ==> e.id != s[0].id;
    }
  }

  lemma RemoveOldest(history: seq<Entry>, n: nat)
    requires DistinctIds(history) && n <= |Normalized(history)|
    ensures Normalized(Expired(history, Ids(Normalized(history)[..n]))) == Normalized(history)[n..]
    ensures DistinctIds(Expired(history, Ids(Normalized(history)[..n])))
  {
    var ordered := Normalized(history);
    var ids := Ids(ordered[..n]);
    NormalizedFacts(history);
    NormalizedFilters(history, (e: Entry) => e.id !in ids);
    assert ordered[0..n] == ordered[..n];
    forall i | 0 <= i < |ordered| ensures ordered[i].id in ids <==> i < n {
      SliceIds(ordered, 0, n, i);
    }
    FilterSuffix(ordered, (e: Entry) => e.id !in ids, n);
    FilterKeepsIds(history, (e: Entry) => e.id !in ids);
  }

  lemma TargetsAreLive(history: seq<Entry>, n: nat)
    requires DistinctIds(history) && n <= |Normalized(history)|
    ensures Within(Ids(Normalized(history)[..n]), Ids(history)) && !Repeats(Ids(Normalized(history)[..n]))
  {
    NormalizedFacts(history);
    var oldest := Normalized(history)[..n];
    NoRepeatedIds(oldest);
    forall id | id in Ids(oldest) ensures id in Ids(history) {
      IdsAre(oldest, id);
      var e :| e in oldest && e.id == id;
      assert e in Normalized(history);
      IdsAre(history, id);
    }
  }

  lemma RemovesTargets(history: seq<Entry>, ids: seq<SnapshotId>)
    requires ids != [] && Within(ids, Ids(history))
    ensures forall id :: id in Ids(Expired(history, ids)) <==> id in Ids(history) && id !in ids
    ensures |Expired(history, ids)| < |history|
  {
    var after := Expired(history, ids);
    forall id ensures id in Ids(after) <==> id in Ids(history) && id !in ids {
      IdsAre(after, id);
      IdsAre(history, id);
    }
    FilterSplits(history, (e: Entry) => e.id !in ids);
    assert ids[0] in ids;
    IdsAre(history, ids[0]);
    var e :| e in history && e.id == ids[0];
    assert e in Filter(history, (x: Entry) => !(x.id !in ids));
  }

  /** The planner does not look at the current snapshot, so the executor refuses a faithful plan
      exactly when the current snapshot is one of the selected oldest; otherwise the expiration
      reconciles. */
  lemma ExecutorRefusesExactly(policy: Policy, history: seq<Entry>, current: SnapshotId, cutoff: Instant)
    requires policy.Valid() && DistinctIds(history) && Eligible(policy, Normalized(history), cutoff) > 0
    ensures var action := ActionFor(policy, history, current, cutoff);
      && Execute(history, current, action, true) ==
          (if current in action.ids then Failure(CurrentTargeted) else Success(Expired(history, action.ids)))
      && Reconciled(history, Expired(history, action.ids), action)
  {
    var action := ActionFor(policy, history, current, cutoff);
    TargetsAreLive(history, Selected(policy, Normalized(history), cutoff));
    RemovesTargets(history, action.ids);
  }

  ghost predicate CurrentIsEligible(policy: Policy, history: seq<Entry>, current: SnapshotId, cutoff: Instant) {
    current in Ids(Candidates(Normalized(history), policy.minToKeep, cutoff))
  }

  /** What one round does to the snapshots by age. */
  lemma RoundIs(policy: Policy, history: seq<Entry>, current: SnapshotId, cutoff: Instant)
    requires policy.Valid() && DistinctIds(history)
    ensures var ordered := Normalized(history);
      var n := Selected(policy, ordered, cutoff);
      var after := Round(policy, history, current, cutoff);
      && DistinctIds(after)
      && Normalized(after) == (if current in Ids(ordered[..n]) then ordered else ordered[n..])
  {
    var ordered := Normalized(history);
    PlanIsOldest(policy, history, current, cutoff);
    if Eligible(policy, ordered, cutoff) > 0 {
      ExecutorRefusesExactly(policy, history, current, cutoff);
      RemoveOldest(history, Selected(policy, ordered, cutoff));
    } else {
      assert ordered[0..] == ordered;
    }
  }

  lemma {:induction false} OlderAfter(s: seq<Entry>, cutoff: Instant, n: nat)
    requires n <= OlderCount(s, cutoff)
    ensures OlderCount(s[n..], cutoff) == OlderCount(s, cutoff) - n
  {
    if n == 0 {
      assert s[0..] == s;
    } else {
      OlderAfter(s[1..], cutoff, n - 1);
      assert s[n..] == s[1..][n - 1..];
    }
  }

  lemma FewerEligible(policy: Policy, ordered: seq<Entry>, cutoff: Instant, n: nat)
    requires n <= Eligible(policy, ordered, cutoff)
    ensures Eligible(policy, ordered[n..], cutoff) == Eligible(policy, ordered, cutoff) - n
    ensures Protected(ordered[n..], policy.minToKeep) == Protected(ordered, policy.minToKeep)
  {
    if n > 0 {
      var unprotected := |ordered| - policy.minToKeep;
      assert ordered[n..][..unprotected - n] == ordered[..unprotected][n..];
      OlderAfter(ordered[..unprotected], cutoff, n);
    } else {
      assert ordered[0..] == ordered;
    }
  }

  lemma EligibleMeans(policy: Policy, history: seq<Entry>, current: SnapshotId, cutoff: Instant)
    requires DistinctIds(history)
    ensures CurrentIsEligible(policy, history, current, cutoff) <==>
      current in Ids(Normalized(history)[..Eligible(policy, Normalized(history), cutoff)])
  {
    NormalizedFacts(history);
    CandidatesAreOldest(Normalized(history), policy.minToKeep, cutoff);
  }

  lemma PrefixIds(s: seq<Entry>, n: nat, e: nat, id: SnapshotId)
    requires n <= e <= |s|
    ensures id in Ids(s[..e]) <==> id in Ids(s[..n]) || id in Ids(s[n..][..e - n])
  {
    assert s[..e] == s[..n] + s[n..][..e - n];
    MapConcat(s[..n], s[n..][..e - n], (x: Entry) => x.id);
    assert Ids(s[..e]) == Ids(s[..n]) + Ids(s[n..][..e - n]);
  }

  /** A round keeps the current snapshot as eligible or ineligible as it was, keeps the newest
      minToKeep, and removes the oldest eligible prefix unless that has the current snapshot. */
  lemma RoundRemovesOldest(policy: Policy, history: seq<Entry>, current: SnapshotId, cutoff: Instant)
    requires policy.Valid() && DistinctIds(history)
    ensures var ordered := Normalized(history);
      var after := Round(policy, history, current, cutoff);
      && DistinctIds(after)
      && (CurrentIsEligible(policy, after, current, cutoff) <==> CurrentIsEligible(policy, history, current, cutoff))
      && Protected(Normalized(after), policy.minToKeep) == Protected(ordered, policy.minToKeep)
      && (!CurrentIsEligible(policy, history, current, cutoff) ==>
            && Normalized(after) == ordered[Selected(policy, ordered, cutoff)..]
            && Eligible(policy, Normalized(after), cutoff) == Eligible(policy, ordered, cutoff) - Selected(policy, ordered, cutoff))
  {
    RoundIs(policy, history, current, cutoff);
    OldestGone(policy, history, Round(policy, history, current, cutoff), current, cutoff);
  }

  lemma OldestGone(policy: Policy, history: seq<Entry>, after: seq<Entry>, current: SnapshotId, cutoff: Instant)
    requires policy.Valid() && DistinctIds(history) && DistinctIds(after)
    requires var n := Selected(policy, Normalized(history), cutoff);
      Normalized(after) == if current in Ids(Normalized(history)[..n]) then Normalized(history) else Normalized(history)[n..]
    ensures var ordered := Normalized(history);
      && (CurrentIsEligible(policy, after, current, cutoff) <==> CurrentIsEligible(policy, history, current, cutoff))
      && Protected(Normalized(after), policy.minToKeep) == Protected(ordered, policy.minToKeep)
      && (!CurrentIsEligible(policy, history, current, cutoff) ==>
            && Normalized(after) == ordered[Selected(policy, ordered, cutoff)..]
            && Eligible(policy, Normalized(after), cutoff) == Eligible(policy, ordered, cutoff) - Selected(policy, ordered, cutoff))
  {
    EligibleMeans(policy, history, current, cutoff);
    EligibleMeans(policy, after, current, cutoff);
    OldestGoneByAge(policy, Normalized(history), Normalized(after), current, cutoff);
  }

  lemma OldestGoneByAge(policy: Policy, ordered: seq<Entry>, after: seq<Entry>, current: SnapshotId, cutoff: Instant)
    requires var n := Selected(policy, ordered, cutoff);
      after == if current in Ids(ordered[..n]) then ordered else ordered[n..]
    ensures var e := Eligible(policy, ordered, cutoff);
      && (current in Ids(after[..Eligible(policy, after, cutoff)]) <==> current in Ids(ordered[..e]))
      && Protected(after, policy.minToKeep) == Protected(ordered, policy.minToKeep)
      && (current !in Ids(ordered[..e]) ==>
            after == ordered[Selected(policy, ordered, cutoff)..] && Eligible(policy, after, cutoff) == e - Selected(policy, ordered, cutoff))
  {
    var e, n := Eligible(policy, ordered, cutoff), Selected(policy, ordered, cutoff);
    FewerEligible(policy, ordered, cutoff, n);
    PrefixIds(ordered, n, e, current);
  }

  // ---------------------------------------------------------------- all rounds

  function RoundOf(policy: Policy, current: SnapshotId, cutoff: Instant): seq<Entry> -> seq<Entry> {
    (history: seq<Entry>) => Round(policy, history, current, cutoff)
  }

  function Rounds(policy: Policy, history: seq<Entry>, current: SnapshotId, cutoff: Instant, n: nat): seq<Entry> {
    Iterate(RoundOf(policy, current, cutoff), history, n)
  }

  function LeftAfter(e: nat, max: nat, n: nat): nat {
    if n == 0 then e
    else
      var left := LeftAfter(e, max, n - 1);
      left - Minimum(left, max)
  }

  lemma RoundedUp(e: nat, max: nat, n: nat)
    requires max > 0
    ensures e <= n * max <==> (e + max - 1) / max <= n
  {
    var q, r := (e + max - 1) / max, (e + max - 1) % max;
    assert e + max - 1 == q * max + r && 0 <= r < max;
    if q <= n {
      TimesGrows(q, n, max);
    } else {
      TimesGrows(n + 1, q, max);
    }
  }

  lemma TimesGrows(a: int, b: int, max: nat)
    requires a <= b
    ensures a * max <= b * max && (a + 1) * max == a * max + max
  {
  }

  /** Rounds until nothing is left: the eligible count over the maximum, rounded up. */
  lemma {:induction false} NothingLeftExactly(e: nat, max: nat, n: nat)
    requires max > 0
    ensures LeftAfter(e, max, n) == if e <= n * max then 0 else e - n * max
    ensures LeftAfter(e, max, n) == 0 <==> (e + max - 1) / max <= n
  {
    if n > 0 {
      NothingLeftExactly(e, max, n - 1);
      assert n * max == (n - 1) * max + max;
    }
    RoundedUp(e, max, n);
  }

  ghost predicate Drained(policy: Policy, history: seq<Entry>, after: seq<Entry>, cutoff: Instant, left: nat) {
    && Eligible(policy, Normalized(after), cutoff) == left <= Eligible(policy, Normalized(history), cutoff)
    && Normalized(after) == Normalized(history)[Eligible(policy, Normalized(history), cutoff) - left..]
  }

  /** What rounds keep of the table that they start from. */
  ghost predicate Kept(policy: Policy, history: seq<Entry>, current: SnapshotId, cutoff: Instant, after: seq<Entry>) {
    && DistinctIds(after)
    && (CurrentIsEligible(policy, after, current, cutoff) <==> CurrentIsEligible(policy, history, current, cutoff))
    && Protected(Normalized(after), policy.minToKeep) == Protected(Normalized(history), policy.minToKeep)
    && (current in Ids(history) ==> current in Ids(after))
    && forall e :: e in after ==> e in history
  }

  lemma RoundKeepsRows(policy: Policy, history: seq<Entry>, current: SnapshotId, cutoff: Instant)
    requires policy.Valid() && DistinctIds(history)
    ensures forall e :: e in Round(policy, history, current, cutoff) ==> e in history
    ensures current in Ids(history) ==> current in Ids(Round(policy, history, current, cutoff))
  {
    PlanIsOldest(policy, history, current, cutoff);
    if Eligible(policy, Normalized(history), cutoff) > 0 {
      ExecutorRefusesExactly(policy, history, current, cutoff);
      TargetsAreLive(history, Selected(policy, Normalized(history), cutoff));
      RemovesTargets(history, ActionFor(policy, history, current, cutoff).ids);
    }
  }

  ghost function Keeping(policy: Policy, history: seq<Entry>, current: SnapshotId, cutoff: Instant): (seq<Entry>, nat) -> bool {
    (after: seq<Entry>, n: nat) => Kept(policy, history, current, cutoff, after)
  }

  lemma RoundsKeep(policy: Policy, history: seq<Entry>, current: SnapshotId, cutoff: Instant, n: nat)
    requires policy.Valid() && DistinctIds(history)
    ensures Keeping(policy, history, current, cutoff)(Rounds(policy, history, current, cutoff, n), n)
  {
    var step, keeps := RoundOf(policy, current, cutoff), Keeping(policy, history, current, cutoff);
    forall x, k: nat | keeps(x, k) ensures keeps(step(x), k + 1) {
      RoundRemovesOldest(policy, x, current, cutoff);
      RoundKeepsRows(policy, x, current, cutoff);
    }
    IterateKeeps(step, keeps, history, n);
  }

  lemma SuffixOfSuffix(s: seq<Entry>, i: nat, j: nat)
    requires i + j <= |s|
    ensures s[i..][j..] == s[i + j..]
  {
  }

  lemma DrainsOn(policy: Policy, history: seq<Entry>, before: seq<Entry>, current: SnapshotId, cutoff: Instant, left: nat)
    requires policy.Valid() && DistinctIds(before) && !CurrentIsEligible(policy, before, current, cutoff)
    requires Drained(policy, history, before, cutoff, left)
    ensures Drained(policy, history, Round(policy, before, current, cutoff), cutoff, left - Minimum(left, policy.maxToExpire))
  {
    RoundRemovesOldest(policy, before, current, cutoff);
    SuffixOfSuffix(Normalized(history), Eligible(policy, Normalized(history), cutoff) - left, Minimum(left, policy.maxToExpire));
  }

  ghost predicate IsDraining(policy: Policy, history: seq<Entry>, current: SnapshotId, cutoff: Instant, after: seq<Entry>, n: nat) {
    && DistinctIds(after) && !CurrentIsEligible(policy, after, current, cutoff)
    && Drained(policy, history, after, cutoff, LeftAfter(Eligible(policy, Normalized(history), cutoff), policy.maxToExpire, n))
  }

  ghost function Draining(policy: Policy, history: seq<Entry>, current: SnapshotId, cutoff: Instant): (seq<Entry>, nat) -> bool {
    (after: seq<Entry>, n: nat) => IsDraining(policy, history, current, cutoff, after, n)
  }

  lemma StaysIneligible(policy: Policy, x: seq<Entry>, current: SnapshotId, cutoff: Instant)
    requires policy.Valid() && DistinctIds(x) && !CurrentIsEligible(policy, x, current, cutoff)
    ensures DistinctIds(Round(policy, x, current, cutoff)) && !CurrentIsEligible(policy, Round(policy, x, current, cutoff), current, cutoff)
  {
    RoundRemovesOldest(policy, x, current, cutoff);
  }

  lemma DrainStep(policy: Policy, history: seq<Entry>, current: SnapshotId, cutoff: Instant, x: seq<Entry>, after: seq<Entry>, k: nat)
    requires policy.Valid() && IsDraining(policy, history, current, cutoff, x, k) && after == Round(policy, x, current, cutoff)
    ensures IsDraining(policy, history, current, cutoff, after, k + 1)
  {
    StaysIneligible(policy, x, current, cutoff);
    DrainsOn(policy, history, x, current, cutoff, LeftAfter(Eligible(policy, Normalized(history), cutoff), policy.maxToExpire, k));
  }

  lemma DrainStarts(policy: Policy, history: seq<Entry>, current: SnapshotId, cutoff: Instant)
    requires DistinctIds(history) && !CurrentIsEligible(policy, history, current, cutoff)
    ensures Draining(policy, history, current, cutoff)(history, 0)
  {
    assert Normalized(history)[0..] == Normalized(history);
  }

  lemma DrainGoesOn(policy: Policy, history: seq<Entry>, current: SnapshotId, cutoff: Instant, x: seq<Entry>, k: nat)
    requires policy.Valid() && Draining(policy, history, current, cutoff)(x, k)
    ensures Draining(policy, history, current, cutoff)(RoundOf(policy, current, cutoff)(x), k + 1)
  {
    DrainStep(policy, history, current, cutoff, x, Round(policy, x, current, cutoff), k);
  }

  lemma RoundsDrain(policy: Policy, history: seq<Entry>, current: SnapshotId, cutoff: Instant, n: nat)
    requires policy.Valid() && DistinctIds(history) && !CurrentIsEligible(policy, history, current, cutoff)
    ensures Draining(policy, history, current, cutoff)(Rounds(policy, history, current, cutoff, n), n)
  {
    DrainStarts(policy, history, current, cutoff);
    forall x, k: nat | Draining(policy, history, current, cutoff)(x, k)
      ensures Draining(policy, history, current, cutoff)(RoundOf(policy, current, cutoff)(x), k + 1)
    {
      DrainGoesOn(policy, history, current, cutoff, x, k);
    }
    IterateKeeps(RoundOf(policy, current, cutoff), Draining(policy, history, current, cutoff), history, n);
  }

  lemma HealthyMeans(policy: Policy, history: seq<Entry>, current: SnapshotId, cutoff: Instant)
    requires policy.Valid() && DistinctIds(history)
    ensures IsHealthy(policy, history, current, cutoff) <==> Eligible(policy, Normalized(history), cutoff) == 0
    ensures IsHealthy(policy, history, current, cutoff) ==> !CurrentIsEligible(policy, history, current, cutoff)
  {
    PlanIsOldest(policy, history, current, cutoff);
    EligibleMeans(policy, history, current, cutoff);
  }

  function RoundsNeeded(eligible: nat, max: nat): nat
    requires max > 0
  {
    (eligible + max - 1) / max
  }

  /** Healthy exactly when the current snapshot is not eligible and the rounds reach the eligible
      count over the maximum, rounded up; then the eligible snapshots are gone and nothing else. */
  ghost predicate HealthyExactly(policy: Policy, history: seq<Entry>, current: SnapshotId, cutoff: Instant, after: seq<Entry>, n: nat)
    requires policy.Valid()
  {
    var e := Eligible(policy, Normalized(history), cutoff);
    && (IsHealthy(policy, after, current, cutoff) <==>
          !CurrentIsEligible(policy, history, current, cutoff) && RoundsNeeded(e, policy.maxToExpire) <= n)
    && (IsHealthy(policy, after, current, cutoff) ==> Normalized(after) == Normalized(history)[e..])
  }

  lemma HealthyWhenDrained(policy: Policy, history: seq<Entry>, current: SnapshotId, cutoff: Instant, after: seq<Entry>, n: nat)
    requires policy.Valid() && DistinctIds(after) && !CurrentIsEligible(policy, history, current, cutoff)
    requires Drained(policy, history, after, cutoff, LeftAfter(Eligible(policy, Normalized(history), cutoff), policy.maxToExpire, n))
    ensures HealthyExactly(policy, history, current, cutoff, after, n)
  {
    HealthyMeans(policy, after, current, cutoff);
    NothingLeft(Eligible(policy, Normalized(history), cutoff), policy.maxToExpire, n);
  }

  lemma NothingLeft(e: nat, max: nat, n: nat)
    requires max > 0
    ensures LeftAfter(e, max, n) == 0 <==> RoundsNeeded(e, max) <= n
  {
    NothingLeftExactly(e, max, n);
  }

  /** Drains and stops, exactly when it can. An eligible current snapshot, after a rollback say, is
      proposed for ever and never expired; the newest minToKeep stay in either case. */
  lemma DrainsExactly(policy: Policy, history: seq<Entry>, current: SnapshotId, cutoff: Instant, n: nat)
    requires policy.Valid() && DistinctIds(history)
    ensures HealthyExactly(policy, history, current, cutoff, Rounds(policy, history, current, cutoff, n), n)
    ensures Kept(policy, history, current, cutoff, Rounds(policy, history, current, cutoff, n))
  {
    RoundsKeep(policy, history, current, cutoff, n);
    if !CurrentIsEligible(policy, history, current, cutoff) {
      RoundsDrain(policy, history, current, cutoff, n);
      HealthyWhenDrained(policy, history, current, cutoff, Rounds(policy, history, current, cutoff, n), n);
    } else {
      HealthyMeans(policy, Rounds(policy, history, current, cutoff, n), current, cutoff);
    }
  }

  // ---------------------------------------------------------------- a table that never drains

  /** Five snapshots a second apart; a rollback made the oldest one current. */
  const ROLLED_BACK: seq<Entry> := [Entry(1, 1), Entry(2, 2), Entry(3, 3), Entry(4, 4), Entry(5, 5)]
  const ONE_A_ROUND: Policy := Policy(2, 1)

  lemma {:induction false} AllOlder(s: seq<Entry>, cutoff: Instant)
    requires forall e :: e in s ==> e.at < cutoff
    ensures OlderCount(s, cutoff) == |s|
  {
    if s != [] {
      assert s[0] in s;
      AllOlder(s[1..], cutoff);
    }
  }

  lemma {:induction false} SortedStays(s: seq<Entry>)
    requires Sorted(s)
    ensures Normalized(s) == s
  {
    if s != [] {
      SortedStays(s[1..]);
    }
  }

  lemma ThreeMayGo(ordered: seq<Entry>)
    requires |ordered| == 5 && forall e :: e in ordered ==> e.at < 10
    ensures Eligible(ONE_A_ROUND, ordered, 10) == 3 && Selected(ONE_A_ROUND, ordered, 10) == 1
  {
    AllOlder(ordered[..3], 10);
  }

  lemma OldestIsProposed(policy: Policy, history: seq<Entry>, current: SnapshotId, cutoff: Instant)
    requires Normalized(history) == history && history != [] && Selected(policy, history, cutoff) == 1
    ensures ActionFor(policy, history, current, cutoff).ids == [history[0].id]
  {
    assert Ids(history[..1]) == [history[0].id];
  }

  lemma FiveOldPlan(history: seq<Entry>, current: SnapshotId)
    requires |history| == 5 && Sorted(history) && (forall e :: e in history ==> e.at < 10) && history[0].id == current
    ensures Eligible(ONE_A_ROUND, Normalized(history), 10) == 3
    ensures ActionFor(ONE_A_ROUND, history, current, 10).ids == [current]
  {
    SortedStays(history);
    ThreeMayGo(history);
    OldestIsProposed(ONE_A_ROUND, history, current, 10);
  }

  /** While a plan selects the current snapshot, rounds change nothing. */
  lemma {:induction false} StuckForever(policy: Policy, history: seq<Entry>, current: SnapshotId, cutoff: Instant, n: nat)
    requires policy.Valid() && DistinctIds(history) && Eligible(policy, Normalized(history), cutoff) > 0
    requires current in ActionFor(policy, history, current, cutoff).ids
    ensures Rounds(policy, history, current, cutoff, n) == history
  {
    if n > 0 {
      StuckForever(policy, history, current, cutoff, n - 1);
      PlanIsOldest(policy, history, current, cutoff);
      ExecutorRefusesExactly(policy, history, current, cutoff);
    }
  }

  /** The planner proposes the current snapshot in every round, the executor refuses every time, and
      the two others that may expire are never reached. */
  lemma RollbackNeverDrains(history: seq<Entry>, n: nat)
    requires history == ROLLED_BACK
    ensures Rounds(ONE_A_ROUND, history, 1, 10, n) == history && Eligible(ONE_A_ROUND, Normalized(history), 10) == 3
    ensures !IsHealthy(ONE_A_ROUND, Rounds(ONE_A_ROUND, history, 1, 10, n), 1, 10)
  {
    FiveOldPlan(history, 1);
    PlanIsOldest(ONE_A_ROUND, history, 1, 10);
    StuckForever(ONE_A_ROUND, history, 1, 10, n);
  }

  // ---------------------------------------------------------------- planner and table

  /** Old enough, and not among the newest that are kept whatever their age. */
  ghost predicate MayExpire(policy: Policy, history: seq<Entry>, e: Entry, cutoff: Instant) {
    e in history && e.at < cutoff && e.id !in Ids(Protected(Normalized(history), policy.minToKeep))
  }

  /** Up to the maximum of the snapshots that may expire, none newer than one that is left out. */
  ghost predicate ProposesOldest(policy: Policy, history: seq<Entry>, ids: seq<SnapshotId>, cutoff: Instant) {
    && ids != [] && !Repeats(ids) && |ids| <= policy.maxToExpire
    && (forall id :: id in ids ==> exists e :: MayExpire(policy, history, e, cutoff) && e.id == id)
    && (forall e :: MayExpire(policy, history, e, cutoff) && e.id !in ids ==>
          |ids| == policy.maxToExpire && forall f :: f in history && f.id in ids ==> f.at <= e.at)
  }

  lemma MayExpireIsPrefix(policy: Policy, history: seq<Entry>, e: Entry, cutoff: Instant)
    requires DistinctIds(history)
    ensures MayExpire(policy, history, e, cutoff) <==> e in Normalized(history)[..Eligible(policy, Normalized(history), cutoff)]
  {
    NormalizedFacts(history);
    CandidatesAreOldest(Normalized(history), policy.minToKeep, cutoff);
    assert e in Candidates(Normalized(history), policy.minToKeep, cutoff) <==> MayExpire(policy, history, e, cutoff);
  }

  lemma ActionIsOldest(policy: Policy, history: seq<Entry>, current: SnapshotId, cutoff: Instant)
    requires policy.Valid() && DistinctIds(history) && Eligible(policy, Normalized(history), cutoff) > 0
    ensures ProposesOldest(policy, history, ActionFor(policy, history, current, cutoff).ids, cutoff)
  {
    var ordered := Normalized(history);
    var n, e := Selected(policy, ordered, cutoff), Eligible(policy, ordered, cutoff);
    var ids := Ids(ordered[..n]);
    NormalizedFacts(history);
    TargetsAreLive(history, n);
    assert ordered[0..n] == ordered[..n];
    forall i | 0 <= i < |ordered| ensures ordered[i].id in ids <==> i < n {
      SliceIds(ordered, 0, n, i);
    }
    forall id | id in ids ensures exists x :: MayExpire(policy, history, x, cutoff) && x.id == id {
      var i :| 0 <= i < n && ids[i] == id;
      assert ordered[..e][i] == ordered[i];
      MayExpireIsPrefix(policy, history, ordered[i], cutoff);
    }
    forall x | MayExpire(policy, history, x, cutoff) && x.id !in ids
      ensures n == policy.maxToExpire && forall f :: f in history && f.id in ids ==> f.at <= x.at
    {
      MayExpireIsPrefix(policy, history, x, cutoff);
      var i :| 0 <= i < e && ordered[..e][i] == x;
      forall f | f in history && f.id in ids ensures f.at <= x.at {
        var j :| 0 <= j < |ordered| && ordered[j] == f;
      }
    }
  }

  lemma NoneMayExpire(policy: Policy, history: seq<Entry>, cutoff: Instant)
    requires DistinctIds(history)
    ensures Eligible(policy, Normalized(history), cutoff) == 0 <==> forall e :: !MayExpire(policy, history, e, cutoff)
  {
    var ordered := Normalized(history);
    var n := Eligible(policy, ordered, cutoff);
    forall e ensures MayExpire(policy, history, e, cutoff) <==> e in ordered[..n] {
      MayExpireIsPrefix(policy, history, e, cutoff);
    }
    if n > 0 {
      assert ordered[..n][0] in ordered[..n];
    }
  }

  /** The verdict on a table without other references: an error exactly when an identifier is listed
      twice, healthy exactly when nothing may expire, and otherwise a plan of the oldest. */
  lemma PlanExactly(policy: Policy, history: seq<Entry>, current: SnapshotId, cutoff: Instant)
    requires policy.Valid()
    ensures var plan := PlanSnapshots(policy, Some(history), false, current, cutoff);
      && (plan.Failure? <==> !DistinctIds(history))
      && (plan.Success? ==> plan.value == Healthy || plan.value == Recommend(ActionFor(policy, history, current, cutoff)))
      && (plan.Success? ==> (plan.value == Healthy <==> forall e :: !MayExpire(policy, history, e, cutoff)))
      && (plan.Success? && plan.value.Recommend? ==> ProposesOldest(policy, history, plan.value.action.ids, cutoff))
  {
    if DistinctIds(history) {
      PlanIsOldest(policy, history, current, cutoff);
      NoneMayExpire(policy, history, cutoff);
      if Eligible(policy, Normalized(history), cutoff) > 0 {
        ActionIsOldest(policy, history, current, cutoff);
      }
    } else {
      var i, j :| 0 <= i < j < |history| && history[i].id == history[j].id;
      assert Ids(history)[i] == Ids(history)[j];
    }
  }

  class SnapshotPlanner {
    const policy: Policy
    /** The actions and check outcomes of the plan being made. */
    var actions: seq<ExpireAction>
    var outcomes: seq<Verdict>

    constructor (policy: Policy)
      requires policy.Valid()
      ensures this.policy == policy && actions == [] && outcomes == []
    {
      this.policy, actions, outcomes := policy, [], [];
    }

    /** history is None when the report has none; otherReferences says that a branch or tag besides
        main exists. */
    method CheckSnapshots(history: Option<seq<Entry>>, otherReferences: bool, current: SnapshotId, cutoff: Instant)
      returns (error: Option<PlanningError>)
      requires policy.Valid()
      modifies this
      ensures error != None ==> actions == old(actions) && outcomes == old(outcomes)
      ensures history == None || otherReferences ==> error == None && outcomes == old(outcomes) + [Deferred] && actions == old(actions)
      ensures history != None && !otherReferences ==>
        && (error != None <==> !DistinctIds(history.value))
        && (error == None ==> |outcomes| == |old(outcomes)| + 1 && old(outcomes) <= outcomes)
      ensures history != None && !otherReferences && error == None ==>
        var verdict := outcomes[|outcomes| - 1];
        && (verdict == Healthy || verdict == Recommend(ActionFor(policy, history.value, current, cutoff)))
        && (verdict == Healthy <==> forall e :: !MayExpire(policy, history.value, e, cutoff))
        && (verdict == Healthy ==> actions == old(actions))
        && (verdict.Recommend? ==>
              && actions == old(actions) + [verdict.action] && ProposesOldest(policy, history.value, verdict.action.ids, cutoff)
              && verdict.action.expectedHistory == Ids(history.value) && verdict.action.expectedCurrent == current)
    {
      if history == None || otherReferences {
        outcomes := outcomes + [Deferred];
        return None;
      }
      PlanExactly(policy, history.value, current, cutoff);
      var normalized := history.value;
      var ids := Ids(normalized);
      if exists i, j | 0 <= i < j < |ids| :: ids[i] == ids[j] { return Some(DuplicateIds); }
      normalized := Normalized(normalized);
      var candidates := Candidates(normalized, policy.minToKeep, cutoff);
      if candidates == [] {
        outcomes := outcomes + [Healthy];
        return None;
      }
      var action := ExpireAction(Ids(Take(candidates, policy.maxToExpire)), policy.maxToExpire, ids, current);
      outcomes := outcomes + [Recommend(action)];
      actions := actions + [action];
      error := None;
    }
  }

  /** What the executor demands of a plan, an approval and the live table. */
  predicate Executable(history: seq<Entry>, current: SnapshotId, action: ExpireAction, approved: bool) {
    && approved && current == action.expectedCurrent && current !in action.ids
    && 0 < |action.ids| <= action.maxToExpire && (forall i, j | 0 <= i < j < |action.ids| :: action.ids[i] != action.ids[j])
    && (forall e | e in history :: e.id in action.expectedHistory)
    && (forall id | id in action.expectedHistory :: HasId(history, id)) && (forall id | id in action.ids :: HasId(history, id))
  }

  predicate HasId(history: seq<Entry>, id: SnapshotId) {
    exists e | e in history :: e.id == id
  }

  lemma DemandsExactly(history: seq<Entry>, action: ExpireAction)
    ensures Repeats(action.ids) <==> !(forall i, j :: 0 <= i < j < |action.ids| ==> action.ids[i] != action.ids[j])
    ensures SameIds(Ids(history), action.expectedHistory) <==>
      (forall e :: e in history ==> e.id in action.expectedHistory) && (forall id :: id in action.expectedHistory ==> HasId(history, id))
    ensures Within(action.ids, Ids(history)) <==> forall id :: id in action.ids ==> HasId(history, id)
  {
    forall id ensures id in Ids(history) <==> HasId(history, id) {
      IdsAre(history, id);
    }
    assert forall e :: e in history ==> HasId(history, e.id);
  }

  lemma ExecuteExactly(history: seq<Entry>, current: SnapshotId, action: ExpireAction, approved: bool)
    ensures var r := Execute(history, current, action, approved);
      && (r.Success? <==> Executable(history, current, action, approved))
      && (r.Success? ==> r.value == Expired(history, action.ids) && Reconciled(history, r.value, action))
      && (r.Success? && current in Ids(history) ==> current in Ids(r.value))
  {
    DemandsExactly(history, action);
    if Executable(history, current, action, approved) {
      RemovesTargets(history, action.ids);
    }
  }

  class IcebergTable {
    var history: seq<Entry>
    var current: SnapshotId

    constructor (history: seq<Entry>, current: SnapshotId)
      ensures this.history == history && this.current == current
    {
      this.history, this.current := history, current;
    }

    /** run() with apply; the procedure expires exactly the listed snapshots. */
    method Expire(action: ExpireAction, approved: bool) returns (result: Result<bool, ExecutionError>)
      modifies this`history
      ensures result.Success? <==> Executable(old(history), current, action, approved)
      ensures result.Failure? ==> history == old(history) && Execute(old(history), current, action, approved) == Failure(result.error)
      ensures result.Success? ==> result.value && history == Expired(old(history), action.ids) && |history| < |old(history)|
      ensures result.Success? ==> forall e :: e in history <==> e in old(history) && e.id !in action.ids
      ensures result.Success? ==> forall id :: id in Ids(history) <==> id in Ids(old(history)) && id !in action.ids
      ensures current in Ids(old(history)) ==> current in Ids(history)
    {
      ExecuteExactly(history, current, action, approved);
      var before := history;
      if current != action.expectedCurrent { return Failure(CurrentChanged); }
      if !approved { return Failure(NotApproved); }
      if action.ids == [] || |action.ids| > action.maxToExpire { return Failure(BatchTooLarge); }
      if Repeats(action.ids) { return Failure(RepeatedIds); }
      if !SameIds(Ids(before), action.expectedHistory) { return Failure(HistoryChanged); }
      if current in action.ids { return Failure(CurrentTargeted); }
      if !Within(action.ids, Ids(before)) { return Failure(TargetAbsent); }
      history := Expired(before, action.ids);
      result := Success(Reconciled(before, history, action));
    }
  }
}
