/** Ranger policies: merging those that share a resource, and bringing the server in line. */
module RangerPolicies {
  import opened Types
  import opened Frames

  type User = nat
  type Access = nat
  type Resource = nat

  // ---------------------------------------------------------------- merging

  /** One item of a policy: these users may use these accesses. */
  datatype Item = Item(users: set<User>, accesses: set<Access>)

  /** A compiled access policy has one item; a merged one has an item for each distinct set of accesses. */
  datatype AccessPolicy = AccessPolicy(resource: Resource, item: Item)
  datatype MergedPolicy = MergedPolicy(resource: Resource, items: seq<Item>)

  ghost predicate Granted(policies: seq<AccessPolicy>, r: Resource, u: User, a: Access) {
    exists p :: p in policies && p.resource == r && u in p.item.users && a in p.item.accesses
  }

  ghost predicate GrantedBy(items: seq<Item>, u: User, a: Access) {
    exists i :: i in items && u in i.users && a in i.accesses
  }

  ghost predicate GrantedAfter(policies: seq<MergedPolicy>, r: Resource, u: User, a: Access) {
    exists p :: p in policies && p.resource == r && GrantedBy(p.items, u, a)
  }

  ghost predicate DistinctAccesses(items: seq<Item>) {
    forall i, j :: 0 <= i < j < |items| ==> items[i].accesses != items[j].accesses
  }

  /** items_by_access.setdefault(accesses, set()).update(users) */
  function AddItem(items: seq<Item>, item: Item): seq<Item> {
    if items == [] then [item]
    else if items[0].accesses == item.accesses then [Item(items[0].users + item.users, item.accesses)] + items[1..]
    else [items[0]] + AddItem(items[1..], item)
  }

  /** grouped.setdefault(key, []).append(policy) */
  function AddPolicy(grouped: seq<(Resource, seq<AccessPolicy>)>, p: AccessPolicy): seq<(Resource, seq<AccessPolicy>)> {
    if grouped == [] then [(p.resource, [p])]
    else if grouped[0].0 == p.resource then [(p.resource, grouped[0].1 + [p])] + grouped[1..]
    else [grouped[0]] + AddPolicy(grouped[1..], p)
  }

  ghost predicate DistinctGroups(grouped: seq<(Resource, seq<AccessPolicy>)>) {
    forall i, j :: 0 <= i < j < |grouped| ==> grouped[i].0 != grouped[j].0
  }

  ghost predicate InGroup(grouped: seq<(Resource, seq<AccessPolicy>)>, p: AccessPolicy) {
    exists g :: g in grouped && g.0 == p.resource && p in g.1
  }

  /** The groups hold exactly these policies, each under its resource, one group a resource. */
  ghost predicate Groups(grouped: seq<(Resource, seq<AccessPolicy>)>, policies: seq<AccessPolicy>) {
    && DistinctGroups(grouped)
    && (forall g, p :: g in grouped && p in g.1 ==> p in policies && p.resource == g.0)
    && (forall p :: p in policies ==> InGroup(grouped, p))
  }

  lemma FirstItemGrants(items: seq<Item>, u: User, a: Access)
    requires items != []
    ensures GrantedBy(items, u, a) <==> (u in items[0].users && a in items[0].accesses) || GrantedBy(items[1..], u, a)
  {
  }

  lemma {:induction false} AddItemGrants(items: seq<Item>, item: Item)
    requires DistinctAccesses(items)
    ensures DistinctAccesses(AddItem(items, item))
    ensures forall i :: i in AddItem(items, item) ==> i.accesses == item.accesses || exists k :: k in items && k.accesses == i.accesses
    ensures forall u, a :: GrantedBy(AddItem(items, item), u, a) <==> GrantedBy(items, u, a) || (u in item.users && a in item.accesses)
  {
    var after := AddItem(items, item);
    if items == [] {
      assert after == [item];
    } else if items[0].accesses == item.accesses {
      assert forall i :: i in after <==> i == after[0] || i in items[1..];
      assert forall i :: i in items <==> i == items[0] || i in items[1..];
    } else {
      AddItemGrants(items[1..], item);
      var rest := AddItem(items[1..], item);
      assert forall i :: i in after <==> i == items[0] || i in rest;
      assert forall i :: i in items <==> i == items[0] || i in items[1..];
      assert after[1..] == rest;
      forall u, a ensures GrantedBy(after, u, a) <==> GrantedBy(items, u, a) || (u in item.users && a in item.accesses) {
        FirstItemGrants(after, u, a);
        FirstItemGrants(items, u, a);
      }
      forall k | 0 <= k < |rest| ensures rest[k].accesses != items[0].accesses {
        assert rest[k] in rest;
        if rest[k].accesses != item.accesses {
          var prior :| prior in items[1..] && prior.accesses == rest[k].accesses;
          var n :| 0 <= n < |items[1..]| && items[1..][n] == prior;
          assert items[n + 1] == prior;
        }
      }
    }
  }

  lemma {:induction false} AddPolicyGroups(grouped: seq<(Resource, seq<AccessPolicy>)>, p: AccessPolicy)
    requires DistinctGroups(grouped)
    ensures DistinctGroups(AddPolicy(grouped, p))
    ensures forall g :: g in AddPolicy(grouped, p) ==> g.0 == p.resource || g in grouped
    ensures forall g, q :: g in AddPolicy(grouped, p) && q in g.1 ==> (q == p && g.0 == p.resource) || exists h :: h in grouped && h.0 == g.0 && q in h.1
    ensures InGroup(AddPolicy(grouped, p), p) && forall q :: InGroup(grouped, q) ==> InGroup(AddPolicy(grouped, p), q)
  {
    var after := AddPolicy(grouped, p);
    if grouped == [] {
      assert after[0] in after;
    } else if grouped[0].0 == p.resource {
      assert forall g :: g in after <==> g == after[0] || g in grouped[1..];
      assert forall g :: g in grouped <==> g == grouped[0] || g in grouped[1..];
      forall q | InGroup(grouped, q) ensures InGroup(after, q) {
        var g :| g in grouped && g.0 == q.resource && q in g.1;
        assert after[0] in after;
        if g == grouped[0] {
          assert q in after[0].1;
        }
      }
    } else {
      AddPolicyGroups(grouped[1..], p);
      var rest := AddPolicy(grouped[1..], p);
      assert forall g :: g in after <==> g == grouped[0] || g in rest;
      assert forall g :: g in grouped <==> g == grouped[0] || g in grouped[1..];
      forall k | 0 <= k < |rest| ensures rest[k].0 != grouped[0].0 {
        assert rest[k] in rest;
      }
      forall q | InGroup(grouped, q) ensures InGroup(after, q) {
        var g :| g in grouped && g.0 == q.resource && q in g.1;
        if g in grouped[1..] {
          assert InGroup(grouped[1..], q);
          var h :| h in rest && h.0 == q.resource && q in h.1;
          assert h in after;
        } else {
          assert g in after;
        }
      }
    }
  }

  method MergeGroup(resource: Resource, matches: seq<AccessPolicy>) returns (merged: MergedPolicy)
    ensures merged.resource == resource && DistinctAccesses(merged.items)
    ensures forall u, a :: GrantedBy(merged.items, u, a) <==> exists p :: p in matches && u in p.item.users && a in p.item.accesses
  {
    var items: seq<Item> := [];
    for i := 0 to |matches|
      invariant DistinctAccesses(items)
      invariant forall u, a :: GrantedBy(items, u, a) <==> exists p :: p in matches[..i] && u in p.item.users && a in p.item.accesses
    {
      AddItemGrants(items, matches[i].item);
      assert matches[..i + 1] == matches[..i] + [matches[i]];
      items := AddItem(items, matches[i].item);
    }
    assert matches[..|matches|] == matches;
    merged := MergedPolicy(resource, items);
  }

  /** Merging preserves meaning: a user has an access to a resource after it exactly when before;
      and its result has one policy a resource and one item a set of accesses. */
  method MergeMatchingResources(policies: seq<AccessPolicy>) returns (merged: seq<MergedPolicy>)
    ensures forall r, u, a :: GrantedAfter(merged, r, u, a) <==> Granted(policies, r, u, a)
    ensures forall i, j :: 0 <= i < j < |merged| ==> merged[i].resource != merged[j].resource
    ensures forall p :: p in merged ==> DistinctAccesses(p.items)
    ensures forall p :: p in policies ==> exists m :: m in merged && m.resource == p.resource
  {
    var grouped: seq<(Resource, seq<AccessPolicy>)> := [];
    for i := 0 to |policies|
      invariant Groups(grouped, policies[..i])
    {
      AddPolicyGroups(grouped, policies[i]);
      assert policies[..i + 1] == policies[..i] + [policies[i]];
      grouped := AddPolicy(grouped, policies[i]);
    }
    assert policies[..|policies|] == policies;
    merged := [];
    for i := 0 to |grouped|
      invariant |merged| == i && forall k :: 0 <= k < i ==> MergedFrom(merged[k], grouped[k])
    {
      var one := MergeGroup(grouped[i].0, grouped[i].1);
      merged := merged + [one];
    }
    MergedMeans(policies, grouped, merged);
  }

  ghost predicate MergedFrom(m: MergedPolicy, g: (Resource, seq<AccessPolicy>)) {
    && m.resource == g.0 && DistinctAccesses(m.items)
    && forall u, a :: GrantedBy(m.items, u, a) <==> exists p :: p in g.1 && u in p.item.users && a in p.item.accesses
  }

  lemma MergedMeans(policies: seq<AccessPolicy>, grouped: seq<(Resource, seq<AccessPolicy>)>, merged: seq<MergedPolicy>)
    requires Groups(grouped, policies) && |merged| == |grouped| && forall k :: 0 <= k < |merged| ==> MergedFrom(merged[k], grouped[k])
    ensures forall r, u, a :: GrantedAfter(merged, r, u, a) <==> Granted(policies, r, u, a)
    ensures forall i, j :: 0 <= i < j < |merged| ==> merged[i].resource != merged[j].resource
    ensures forall p :: p in merged ==> DistinctAccesses(p.items)
    ensures forall p :: p in policies ==> exists m :: m in merged && m.resource == p.resource
  {
  }

  // ---------------------------------------------------------------- synchronisation

  type PolicyId = nat
  type PolicyName = nat

  /** What the projection compares: name, description, resources and content. */
  datatype Policy = Policy(name: PolicyName, managed: bool, resources: Resource, content: nat)

  /** A policy of the server as listed when the synchronisation starts. */
  datatype Listed = Listed(id: PolicyId, policy: Policy)

  type Server = map<PolicyId, Policy>

  datatype Sync = Sync(server: Server, consumed: set<PolicyId>, created: nat, updated: nat, same: nat)

  /** existing_by_name: the last listed policy with the name, managed or not. */
  function ByName(existing: seq<Listed>, name: PolicyName): (r: Option<Listed>)
    ensures r == None ==> forall e :: e in existing ==> e.policy.name != name
    ensures r != None ==> r.value in existing && r.value.policy.name == name
  {
    if existing == [] then None
    else if existing[|existing| - 1].policy.name == name then Some(existing[|existing| - 1])
    else ByName(existing[..|existing| - 1], name)
  }

  /** The first listed managed policy with the resources that is not consumed yet. */
  function ByResources(existing: seq<Listed>, resources: Resource, consumed: set<PolicyId>): (r: Option<Listed>)
    ensures r != None ==> r.value in existing && r.value.policy.managed && r.value.policy.resources == resources && r.value.id !in consumed
    ensures r == None ==> forall e :: e in existing && e.policy.managed && e.policy.resources == resources ==> e.id in consumed
  {
    if existing == [] then None
    else if existing[0].policy.managed && existing[0].policy.resources == resources && existing[0].id !in consumed then Some(existing[0])
    else ByResources(existing[1..], resources, consumed)
  }

  function Claim(existing: seq<Listed>, consumed: set<PolicyId>, d: Policy): Option<Listed> {
    var named := ByName(existing, d.name);
    if named != None then named else ByResources(existing, d.resources, consumed)
  }

  /** The identifier that the server gives a new policy. */
  function FreshId(server: Server, existing: seq<Listed>): (id: PolicyId)
    ensures id !in server && forall e :: e in existing ==> e.id != id
  {
    var ids := server.Keys + set e | e in existing :: e.id;
    if ids == {} then 0 else 1 + GreatestOf(ids)
  }

  function GreatestOf(s: set<nat>): (m: nat)
    requires s != {}
    ensures m in s && forall x :: x in s ==> x <= m
  {
    GreatestExists(s);
    var m :| m in s && forall x :: x in s ==> x <= m;
    m
  }

  lemma {:induction false} GreatestExists(s: set<nat>)
    requires s != {}
    ensures exists m :: m in s && forall x :: x in s ==> x <= m
    decreases |s|
  {
    var x :| x in s;
    var rest := s - {x};
    if rest != {} {
      GreatestExists(rest);
      var m :| m in rest && forall y :: y in rest ==> y <= m;
      var best := if m < x then x else m;
      assert s == rest + {x} && best in s;
      forall y | y in s ensures y <= best {
        assert y == x || y in rest;
      }
    } else {
      assert s == {x};
    }
  }

  /** One desired policy: claimed and equal, claimed and rewritten, or created. */
  function SyncOne(existing: seq<Listed>, s: Sync, d: Policy): Sync {
    var current := Claim(existing, s.consumed, d);
    if current == None then s.(server := s.server[FreshId(s.server, existing) := d], created := s.created + 1)
    else if current.value.policy == d then s.(consumed := s.consumed + {current.value.id}, same := s.same + 1)
    else s.(server := s.server[current.value.id := d], consumed := s.consumed + {current.value.id}, updated := s.updated + 1)
  }

  function SyncAll(existing: seq<Listed>, start: Server, desired: seq<Policy>): Sync {
    if desired == [] then Sync(start, {}, 0, 0, 0)
    else SyncOne(existing, SyncAll(existing, start, desired[..|desired| - 1]), desired[|desired| - 1])
  }

  predicate IsDesiredName(desired: seq<Policy>, name: PolicyName) {
    exists d | d in desired :: d.name == name
  }

  predicate IsObsolete(desired: seq<Policy>, consumed: set<PolicyId>, e: Listed) {
    e.policy.managed && !IsDesiredName(desired, e.policy.name) && e.id !in consumed
  }

  function ObsoleteIds(existing: seq<Listed>, desired: seq<Policy>, consumed: set<PolicyId>): set<PolicyId> {
    set e | e in existing && IsObsolete(desired, consumed, e) :: e.id
  }

  class RangerAdmin {
    var policies: Server

    constructor (policies: Server)
      ensures this.policies == policies
    {
      this.policies := policies;
    }

    /** The reconciliation loop of sync(), then its deletions. existing is the server's own listing. */
    method Synchronize(existing: seq<Listed>, desired: seq<Policy>) returns (report: Sync, deleted: set<PolicyId>)
      modifies this
      ensures report == SyncAll(existing, old(policies), desired)
      ensures deleted == ObsoleteIds(existing, desired, report.consumed) && policies == report.server - deleted
      ensures report.created + report.updated + report.same == |desired|
      ensures Faithful(existing, old(policies), desired) ==>
        Managed(policies) <= All(desired) && (Managed(policies) == All(desired) <==> !Contested(existing, desired))
    {
      ghost var start := policies;
      if Faithful(existing, start, desired) {
        SynchronizesExactly(existing, start, desired);
      }
      var consumed: set<PolicyId> := {};
      var created, updated, same := 0, 0, 0;
      for i := 0 to |desired|
        invariant Sync(policies, consumed, created, updated, same) == SyncAll(existing, old(policies), desired[..i])
        invariant created + updated + same == i
      {
        assert desired[..i + 1][..i] == desired[..i];
        var d := desired[i];
        var current := Claim(existing, consumed, d);
        if current == None {
          policies := policies[FreshId(policies, existing) := d];
          created := created + 1;
        } else {
          if current.value.policy == d {
            same := same + 1;
          } else {
            policies := policies[current.value.id := d];
            updated := updated + 1;
          }
          consumed := consumed + {current.value.id};
        }
      }
      assert desired[..|desired|] == desired;
      report := Sync(policies, consumed, created, updated, same);
      deleted := ObsoleteIds(existing, desired, consumed);
      policies := policies - deleted;
    }
  }

  // ---------------------------------------------------------------- convergence

  /** The listing is the server's content, and names are unique on both sides. */
  ghost predicate Faithful(existing: seq<Listed>, server: Server, desired: seq<Policy>) {
    && (forall i, j :: 0 <= i < j < |existing| ==> existing[i].id != existing[j].id && existing[i].policy.name != existing[j].policy.name)
    && (forall e :: e in existing ==> e.id in server && server[e.id] == e.policy)
    && (forall id :: id in server ==> Listed(id, server[id]) in existing)
    && (forall i, j :: 0 <= i < j < |desired| ==> desired[i].name != desired[j].name)
    && (forall d :: d in desired ==> d.managed)
  }

  function Consumed(existing: seq<Listed>, start: Server, desired: seq<Policy>): set<PolicyId> {
    SyncAll(existing, start, desired).consumed
  }

  /** No desired policy claims what an earlier one has claimed. */
  predicate NoDoubleClaim(existing: seq<Listed>, start: Server, desired: seq<Policy>) {
    desired == [] ||
    (var before, d := desired[..|desired| - 1], desired[|desired| - 1];
      var claim := Claim(existing, Consumed(existing, start, before), d);
      NoDoubleClaim(existing, start, before) && (claim == None || claim.value.id !in Consumed(existing, start, before)))
  }

  // ---------------------------------------------------------------- which claims collide

  /** Managed, and named by no desired policy: free for a resource match. */
  predicate IsOrphan(desired: seq<Policy>, e: Listed) {
    e.policy.managed && !IsDesiredName(desired, e.policy.name)
  }

  predicate IsOrphanOn(desired: seq<Policy>, r: Resource, e: Listed) {
    IsOrphan(desired, e) && e.policy.resources == r
  }

  /** Orphans on the resource among the listed policies. */
  function Orphans(listed: seq<Listed>, desired: seq<Policy>, r: Resource): nat {
    if listed == [] then 0
    else Orphans(listed[..|listed| - 1], desired, r) + if IsOrphanOn(desired, r, listed[|listed| - 1]) then 1 else 0
  }

  /** Desired policies on the resource that no listed policy is named after. */
  function Newcomers(existing: seq<Listed>, desired: seq<Policy>, r: Resource): nat {
    if desired == [] then 0
    else
      var d := desired[|desired| - 1];
      Newcomers(existing, desired[..|desired| - 1], r) + if d.resources == r && ByName(existing, d.name) == None then 1 else 0
  }

  /** The newcomer i finds the policy at p, which the later j is named after, before any orphan: the
      newcomers before i have used up the orphans listed before p. */
  predicate ContestedAt(existing: seq<Listed>, desired: seq<Policy>, i: nat, j: nat, p: nat)
    requires i < |desired| && j < |desired| && p < |existing|
  {
    && existing[p].policy.managed && existing[p].policy.name == desired[j].name
    && ByName(existing, desired[i].name) == None && existing[p].policy.resources == desired[i].resources
    && Orphans(existing[..p], desired, desired[i].resources) <= Newcomers(existing, desired[..i], desired[i].resources)
  }

  /** What a caller can check on the listing and the desired policies before synchronising. */
  predicate Contested(existing: seq<Listed>, desired: seq<Policy>) {
    exists i, j, p | 0 <= i < j < |desired| && 0 <= p < |existing| :: ContestedAt(existing, desired, i, j, p)
  }

  lemma {:induction false} OrphansGrow(existing: seq<Listed>, desired: seq<Policy>, r: Resource, p: nat, q: nat)
    requires p <= q <= |existing|
    ensures Orphans(existing[..p], desired, r) <= Orphans(existing[..q], desired, r)
    ensures p < q && IsOrphanOn(desired, r, existing[p]) ==> Orphans(existing[..p], desired, r) < Orphans(existing[..q], desired, r)
    decreases q - p
  {
    if p < q {
      OrphansGrow(existing, desired, r, p, q - 1);
      assert existing[..q][..q - 1] == existing[..q - 1];
    }
  }

  /** The listed policies that are claimed while no claim collides: those that a desired policy so far
      is named after, and on each resource as many of the first orphans as there were newcomers. */
  ghost predicate ClaimedInOrder(existing: seq<Listed>, desired: seq<Policy>, n: nat, consumed: set<PolicyId>)
    requires n <= |desired|
  {
    forall p {:trigger existing[p]} :: 0 <= p < |existing| ==>
      (existing[p].id in consumed <==> IsDesiredName(desired[..n], existing[p].policy.name) || UsedOrphan(existing, desired, n, p))
  }

  predicate UsedOrphan(existing: seq<Listed>, desired: seq<Policy>, n: nat, p: nat)
    requires n <= |desired| && p < |existing|
  {
    var r := existing[p].policy.resources;
    IsOrphan(desired, existing[p]) && Orphans(existing[..p], desired, r) < Newcomers(existing, desired[..n], r)
  }

  lemma {:induction false} FirstUnclaimed(existing: seq<Listed>, r: Resource, consumed: set<PolicyId>) returns (q: nat)
    requires ByResources(existing, r, consumed) != None
    ensures q < |existing| && existing[q] == ByResources(existing, r, consumed).value
    ensures forall p :: 0 <= p < q && existing[p].policy.managed && existing[p].policy.resources == r ==> existing[p].id in consumed
  {
    var e := existing[0];
    if e.policy.managed && e.policy.resources == r && e.id !in consumed {
      q := 0;
    } else {
      var rest := FirstUnclaimed(existing[1..], r, consumed);
      q := rest + 1;
      forall p | 0 <= p < q && existing[p].policy.managed && existing[p].policy.resources == r ensures existing[p].id in consumed {
        if p > 0 {
          assert existing[1..][p - 1] == existing[p];
        }
      }
    }
  }

  /** If every orphan on the resource before q is used, there are no more of them than newcomers. */
  lemma {:induction false} UsedUpBefore(existing: seq<Listed>, desired: seq<Policy>, n: nat, r: Resource, q: nat)
    requires n <= |desired| && q <= |existing|
    requires forall p :: 0 <= p < q && IsOrphanOn(desired, r, existing[p]) ==> UsedOrphan(existing, desired, n, p)
    ensures Orphans(existing[..q], desired, r) <= Newcomers(existing, desired[..n], r)
  {
    if q > 0 {
      UsedUpBefore(existing, desired, n, r, q - 1);
      assert existing[..q][..q - 1] == existing[..q - 1];
    }
  }

  lemma NewcomersSoFar(existing: seq<Listed>, desired: seq<Policy>, n: nat, r: Resource)
    requires n < |desired|
    ensures Newcomers(existing, desired[..n + 1], r) ==
      Newcomers(existing, desired[..n], r) + if desired[n].resources == r && ByName(existing, desired[n].name) == None then 1 else 0
  {
    assert desired[..n + 1][..n] == desired[..n];
  }

  lemma NamesSoFar(desired: seq<Policy>, n: nat, name: PolicyName)
    requires n < |desired|
    ensures IsDesiredName(desired[..n + 1], name) <==> IsDesiredName(desired[..n], name) || desired[n].name == name
    ensures IsDesiredName(desired[..n], name) ==> IsDesiredName(desired, name)
  {
    assert desired[..n + 1] == desired[..n] + [desired[n]];
  }

  lemma NamedSoFar(desired: seq<Policy>, n: nat, j: nat)
    requires j < n <= |desired|
    ensures IsDesiredName(desired[..n], desired[j].name)
  {
    assert desired[..n][j] in desired[..n];
  }

  /** A desired policy that a listed one is named after claims that one. */
  lemma NamedClaim(existing: seq<Listed>, start: Server, desired: seq<Policy>, n: nat, consumed: set<PolicyId>)
    requires Faithful(existing, start, desired) && n < |desired| && ClaimedInOrder(existing, desired, n, consumed)
    requires ByName(existing, desired[n].name) != None
    ensures var e := ByName(existing, desired[n].name).value;
      e.id !in consumed && ClaimedInOrder(existing, desired, n + 1, consumed + {e.id})
  {
    var e := ByName(existing, desired[n].name).value;
    var q :| 0 <= q < |existing| && existing[q] == e;
    forall p | 0 <= p < |existing|
      ensures existing[p].id in consumed + {e.id} <==> IsDesiredName(desired[..n + 1], existing[p].policy.name) || UsedOrphan(existing, desired, n + 1, p)
    {
      NamesSoFar(desired, n, existing[p].policy.name);
      NewcomersSoFar(existing, desired, n, existing[p].policy.resources);
      assert existing[p].id == existing[q].id <==> p == q;
    }
    assert desired[n] in desired;
    NotNamedBefore(existing, start, desired, n);
  }

  lemma NotNamedBefore(existing: seq<Listed>, start: Server, desired: seq<Policy>, n: nat)
    requires Faithful(existing, start, desired) && n < |desired|
    ensures !IsDesiredName(desired[..n], desired[n].name)
  {
  }

  lemma OrphansUsedBefore(existing: seq<Listed>, desired: seq<Policy>, n: nat, consumed: set<PolicyId>, q: nat)
    requires n < |desired| && q <= |existing| && ClaimedInOrder(existing, desired, n, consumed)
    requires forall p :: 0 <= p < q && existing[p].policy.managed && existing[p].policy.resources == desired[n].resources ==> existing[p].id in consumed
    ensures Orphans(existing[..q], desired, desired[n].resources) <= Newcomers(existing, desired[..n], desired[n].resources)
  {
    forall p | 0 <= p < q && IsOrphanOn(desired, desired[n].resources, existing[p]) ensures UsedOrphan(existing, desired, n, p) {
      NamesSoFar(desired, n, existing[p].policy.name);
    }
    UsedUpBefore(existing, desired, n, desired[n].resources, q);
  }

  /** The orphan at q is the one that the newcomers so far have left for the next; q is past the end
      when they have left none. */
  ghost predicate NextOrphan(existing: seq<Listed>, desired: seq<Policy>, r: Resource, q: nat, used: nat) {
    && q <= |existing| && Orphans(existing[..q], desired, r) <= used
    && (q < |existing| ==> IsOrphanOn(desired, r, existing[q]) && Orphans(existing[..q], desired, r) == used)
  }

  lemma OnlyNextOrphan(existing: seq<Listed>, desired: seq<Policy>, r: Resource, q: nat, used: nat, p: nat)
    requires NextOrphan(existing, desired, r, q, used) && p < |existing| && IsOrphanOn(desired, r, existing[p])
    ensures Orphans(existing[..p], desired, r) <= used <==> Orphans(existing[..p], desired, r) < used || p == q
  {
    if p < q {
      OrphansGrow(existing, desired, r, p, q);
    } else if q < p {
      OrphansGrow(existing, desired, r, q, p);
    }
  }

  /** The claim of a newcomer at a position, or past the end when there is nothing to claim. */
  ghost predicate ClaimAt(existing: seq<Listed>, r: Resource, consumed: set<PolicyId>, q: nat) {
    if ByResources(existing, r, consumed) == None then q == |existing| else q < |existing| && existing[q] == ByResources(existing, r, consumed).value
  }

  lemma ClaimIsNext(existing: seq<Listed>, desired: seq<Policy>, n: nat, consumed: set<PolicyId>) returns (q: nat)
    requires n < |desired| && ClaimedInOrder(existing, desired, n, consumed)
    requires var claim := ByResources(existing, desired[n].resources, consumed); claim == None || IsOrphan(desired, claim.value)
    ensures ClaimAt(existing, desired[n].resources, consumed, q)
    ensures forall p :: 0 <= p < q && existing[p].policy.managed && existing[p].policy.resources == desired[n].resources ==> existing[p].id in consumed
    ensures NextOrphan(existing, desired, desired[n].resources, q, Newcomers(existing, desired[..n], desired[n].resources))
  {
    var r := desired[n].resources;
    if ByResources(existing, r, consumed) == None {
      q := |existing|;
      forall p | 0 <= p < q && existing[p].policy.managed && existing[p].policy.resources == r ensures existing[p].id in consumed {
      }
    } else {
      q := FirstUnclaimed(existing, r, consumed);
      NamesSoFar(desired, n, existing[q].policy.name);
      assert !UsedOrphan(existing, desired, n, q);
    }
    OrphansUsedBefore(existing, desired, n, consumed, q);
  }

  /** A newcomer that finds an orphan takes the next one on its resource; one that finds nothing shows
      that all are used. */
  lemma OrphanClaim(existing: seq<Listed>, start: Server, desired: seq<Policy>, n: nat, consumed: set<PolicyId>)
    requires Faithful(existing, start, desired) && n < |desired| && ClaimedInOrder(existing, desired, n, consumed)
    requires ByName(existing, desired[n].name) == None
    requires var claim := ByResources(existing, desired[n].resources, consumed); claim == None || IsOrphan(desired, claim.value)
    ensures var claim := ByResources(existing, desired[n].resources, consumed);
      ClaimedInOrder(existing, desired, n + 1, if claim == None then consumed else consumed + {claim.value.id})
  {
    var r := desired[n].resources;
    var claim := ByResources(existing, r, consumed);
    var after := if claim == None then consumed else consumed + {claim.value.id};
    var q := ClaimIsNext(existing, desired, n, consumed);
    forall p | 0 <= p < |existing|
      ensures existing[p].id in after <==> IsDesiredName(desired[..n + 1], existing[p].policy.name) || UsedOrphan(existing, desired, n + 1, p)
    {
      NamesSoFar(desired, n, existing[p].policy.name);
      NewcomersSoFar(existing, desired, n, existing[p].policy.resources);
      assert existing[p].id in after <==> existing[p].id in consumed || p == q;
      if IsOrphanOn(desired, r, existing[p]) {
        OnlyNextOrphan(existing, desired, r, q, Newcomers(existing, desired[..n], r), p);
      }
    }
  }

  // ---------------------------------------------------------------- collisions, exactly

  function ConsumedBefore(existing: seq<Listed>, start: Server, desired: seq<Policy>, n: nat): set<PolicyId>
    requires n <= |desired|
  {
    Consumed(existing, start, desired[..n])
  }

  function ClaimOf(existing: seq<Listed>, start: Server, desired: seq<Policy>, n: nat): Option<Listed>
    requires n < |desired|
  {
    Claim(existing, ConsumedBefore(existing, start, desired, n), desired[n])
  }

  predicate ClaimsFresh(existing: seq<Listed>, start: Server, desired: seq<Policy>, n: nat)
    requires n < |desired|
  {
    var claim := ClaimOf(existing, start, desired, n);
    claim == None || claim.value.id !in ConsumedBefore(existing, start, desired, n)
  }

  lemma ConsumedStep(existing: seq<Listed>, start: Server, desired: seq<Policy>, n: nat)
    requires n < |desired|
    ensures var claim := ClaimOf(existing, start, desired, n);
      ConsumedBefore(existing, start, desired, n + 1) ==
        if claim == None then ConsumedBefore(existing, start, desired, n) else ConsumedBefore(existing, start, desired, n) + {claim.value.id}
  {
    assert desired[..n + 1][..n] == desired[..n];
  }

  lemma {:induction false} ConsumedGrows(existing: seq<Listed>, start: Server, desired: seq<Policy>, i: nat, j: nat)
    requires i <= j <= |desired|
    ensures ConsumedBefore(existing, start, desired, i) <= ConsumedBefore(existing, start, desired, j)
  {
    if i < j {
      ConsumedGrows(existing, start, desired, i, j - 1);
      ConsumedStep(existing, start, desired, j - 1);
    }
  }

  lemma {:induction false} NoDoubleClaimMeans(existing: seq<Listed>, start: Server, desired: seq<Policy>)
    ensures NoDoubleClaim(existing, start, desired) <==> forall n :: 0 <= n < |desired| ==> ClaimsFresh(existing, start, desired, n)
  {
    if desired != [] {
      var before := desired[..|desired| - 1];
      NoDoubleClaimMeans(existing, start, before);
      forall n | 0 <= n < |before| ensures ClaimsFresh(existing, start, before, n) <==> ClaimsFresh(existing, start, desired, n) {
        assert before[..n] == desired[..n];
      }
      assert NoDoubleClaim(existing, start, desired) <==>
        NoDoubleClaim(existing, start, before) && ClaimsFresh(existing, start, desired, |before|);
    }
  }

  /** A newcomer takes a policy that some desired policy is named after. */
  predicate Snatches(existing: seq<Listed>, start: Server, desired: seq<Policy>, n: nat)
    requires n < |desired|
  {
    var claim := ClaimOf(existing, start, desired, n);
    ByName(existing, desired[n].name) == None && claim != None && !IsOrphan(desired, claim.value)
  }

  ghost predicate InOrderAt(existing: seq<Listed>, start: Server, desired: seq<Policy>, n: nat)
    requires n <= |desired|
  {
    ClaimedInOrder(existing, desired, n, ConsumedBefore(existing, start, desired, n))
  }

  lemma ClaimKeepsOrder(existing: seq<Listed>, start: Server, desired: seq<Policy>, n: nat)
    requires Faithful(existing, start, desired) && n < |desired| && InOrderAt(existing, start, desired, n)
    ensures ClaimsFresh(existing, start, desired, n)
    ensures Snatches(existing, start, desired, n) || InOrderAt(existing, start, desired, n + 1)
  {
    ConsumedStep(existing, start, desired, n);
    if ByName(existing, desired[n].name) != None {
      NamedClaim(existing, start, desired, n, ConsumedBefore(existing, start, desired, n));
    } else if !Snatches(existing, start, desired, n) {
      OrphanClaim(existing, start, desired, n, ConsumedBefore(existing, start, desired, n));
    }
  }

  /** The policy that a newcomer snatches is the one that a later desired policy is named after. */
  lemma SnatchedFromLater(existing: seq<Listed>, start: Server, desired: seq<Policy>, n: nat) returns (j: nat, q: nat)
    requires Faithful(existing, start, desired) && n < |desired| && InOrderAt(existing, start, desired, n)
    requires Snatches(existing, start, desired, n)
    ensures n < j < |desired| && q < |existing| && ClaimOf(existing, start, desired, n) == Some(existing[q])
    ensures existing[q].policy.name == desired[j].name && ContestedAt(existing, desired, n, j, q)
  {
    var consumed, r := ConsumedBefore(existing, start, desired, n), desired[n].resources;
    q := FirstUnclaimed(existing, r, consumed);
    var d :| d in desired && d.name == existing[q].policy.name;
    j :| 0 <= j < |desired| && desired[j] == d;
    assert existing[q] in existing;
    if j < n {
      NamedSoFar(desired, n, j);
    }
    OrphansUsedBefore(existing, desired, n, consumed, q);
  }

  /** That later policy then claims it a second time. */
  lemma SnatchedTwice(existing: seq<Listed>, start: Server, desired: seq<Policy>, n: nat, j: nat)
    requires Faithful(existing, start, desired) && n < j < |desired|
    requires ClaimOf(existing, start, desired, n) != None && ClaimOf(existing, start, desired, n).value.policy.name == desired[j].name
    ensures !ClaimsFresh(existing, start, desired, j)
  {
    var e := ClaimOf(existing, start, desired, n).value;
    ConsumedStep(existing, start, desired, n);
    ConsumedGrows(existing, start, desired, n + 1, j);
    assert e in existing;
    UniqueName(existing, start, desired, e);
  }

  lemma {:induction false} InOrderThroughout(existing: seq<Listed>, start: Server, desired: seq<Policy>, n: nat)
    requires Faithful(existing, start, desired) && n <= |desired|
    requires !Contested(existing, desired) || NoDoubleClaim(existing, start, desired)
    ensures InOrderAt(existing, start, desired, n)
    ensures forall k :: 0 <= k < n ==> ClaimsFresh(existing, start, desired, k) && !Snatches(existing, start, desired, k)
  {
    if n == 0 {
      assert desired[..0] == [];
    } else {
      InOrderThroughout(existing, start, desired, n - 1);
      ClaimKeepsOrder(existing, start, desired, n - 1);
      if Snatches(existing, start, desired, n - 1) {
        NoDoubleClaimMeans(existing, start, desired);
        var j, q := SnatchedFromLater(existing, start, desired, n - 1);
        SnatchedTwice(existing, start, desired, n - 1, j);
      }
    }
  }

  lemma ContestedIsSnatched(existing: seq<Listed>, start: Server, desired: seq<Policy>, i: nat, j: nat, p: nat)
    requires Faithful(existing, start, desired) && i < j < |desired| && p < |existing| && ContestedAt(existing, desired, i, j, p)
    requires InOrderAt(existing, start, desired, i)
    ensures Snatches(existing, start, desired, i)
  {
    var consumed, r := ConsumedBefore(existing, start, desired, i), desired[i].resources;
    assert !IsDesiredName(desired[..i], existing[p].policy.name);
    assert desired[j] in desired;
    assert existing[p].id !in consumed;
    if !Snatches(existing, start, desired, i) {
      var q := ClaimIsNext(existing, desired, i, consumed);
      OrphansGrow(existing, desired, r, q, p);
    }
  }

  /** A caller can tell before the call: claims collide exactly when a newcomer is to take the policy
      of a later name, having no orphan left to take before it. */
  lemma NoDoubleClaimExactly(existing: seq<Listed>, start: Server, desired: seq<Policy>)
    requires Faithful(existing, start, desired)
    ensures NoDoubleClaim(existing, start, desired) <==> !Contested(existing, desired)
  {
    NoDoubleClaimMeans(existing, start, desired);
    if NoDoubleClaim(existing, start, desired) {
      forall i, j, p | 0 <= i < j < |desired| && 0 <= p < |existing| ensures !ContestedAt(existing, desired, i, j, p) {
        InOrderThroughout(existing, start, desired, i + 1);
        InOrderThroughout(existing, start, desired, i);
        if ContestedAt(existing, desired, i, j, p) {
          ContestedIsSnatched(existing, start, desired, i, j, p);
        }
      }
    }
    if !Contested(existing, desired) {
      InOrderThroughout(existing, start, desired, |desired|);
    }
  }

  /** Where the server keeps one managed policy a resource, orphans play no part. */
  lemma ContestedSimply(existing: seq<Listed>, desired: seq<Policy>)
    requires forall p, q :: 0 <= p < q < |existing| && existing[p].policy.managed && existing[q].policy.managed ==>
      existing[p].policy.resources != existing[q].policy.resources
    ensures Contested(existing, desired) <==>
      exists i, j, p :: 0 <= i < j < |desired| && 0 <= p < |existing| && Rivals(existing, desired[i], desired[j], existing[p])
  {
    forall i, j, p | 0 <= i < j < |desired| && 0 <= p < |existing|
      ensures ContestedAt(existing, desired, i, j, p) <==> Rivals(existing, desired[i], desired[j], existing[p])
    {
      if Rivals(existing, desired[i], desired[j], existing[p]) {
        NoOrphans(existing[..p], desired, desired[i].resources);
      }
    }
  }

  /** e is the policy that d is named after, on the resource of the newcomer. */
  predicate Rivals(existing: seq<Listed>, newcomer: Policy, d: Policy, e: Listed) {
    && e.policy.managed && e.policy.name == d.name && e.policy.resources == newcomer.resources && ByName(existing, newcomer.name) == None
  }

  lemma {:induction false} NoOrphans(listed: seq<Listed>, desired: seq<Policy>, r: Resource)
    requires forall e :: e in listed && e.policy.managed ==> e.policy.resources != r
    ensures Orphans(listed, desired, r) == 0
  {
    if listed != [] {
      NoOrphans(listed[..|listed| - 1], desired, r);
      assert listed[|listed| - 1] in listed;
    }
  }

  // ---------------------------------------------------------------- what the loop keeps

  ghost predicate OfListing(existing: seq<Listed>, id: PolicyId) {
    exists e :: e in existing && e.id == id
  }

  /** The listed policy of that name, if any, is claimed. */
  ghost predicate NameClaimed(existing: seq<Listed>, consumed: set<PolicyId>, name: PolicyName) {
    forall e :: e in existing && e.policy.name == name ==> e.id in consumed
  }

  /** During the loop: claimed and new policies are desired ones, the others are as listed. */
  ghost predicate Partial(existing: seq<Listed>, s: Sync, desired: seq<Policy>) {
    && (forall id :: id in s.consumed ==> OfListing(existing, id))
    && (forall e :: e in existing ==> e.id in s.server && (e.id !in s.consumed ==> s.server[e.id] == e.policy))
    && (forall id :: id in s.server && (id in s.consumed || !OfListing(existing, id)) ==> s.server[id] in desired)
    && (forall d :: d in desired ==> NameClaimed(existing, s.consumed, d.name))
  }

  lemma UniqueName(existing: seq<Listed>, server: Server, desired: seq<Policy>, e: Listed)
    requires Faithful(existing, server, desired) && e in existing
    ensures ByName(existing, e.policy.name) == Some(e)
  {
  }

  lemma FaithfulPrefix(existing: seq<Listed>, server: Server, desired: seq<Policy>)
    requires Faithful(existing, server, desired) && desired != []
    ensures Faithful(existing, server, desired[..|desired| - 1])
  {
  }

  lemma ClaimsName(existing: seq<Listed>, server: Server, desired: seq<Policy>, s: Sync, d: Policy)
    requires Faithful(existing, server, desired)
    ensures NameClaimed(existing, SyncOne(existing, s, d).consumed, d.name)
    ensures forall name :: NameClaimed(existing, s.consumed, name) ==> NameClaimed(existing, SyncOne(existing, s, d).consumed, name)
  {
  }

  lemma StepIsPartial(existing: seq<Listed>, start: Server, before: seq<Policy>, s: Sync, d: Policy)
    requires Faithful(existing, start, before + [d]) && Partial(existing, s, before)
    ensures Partial(existing, SyncOne(existing, s, d), before + [d])
  {
    var after, claim := SyncOne(existing, s, d), Claim(existing, s.consumed, d);
    ClaimsName(existing, start, before + [d], s, d);
    forall x | x in before + [d] ensures NameClaimed(existing, after.consumed, x.name) {
      assert x in before || x == d;
    }
    if claim != None {
      assert claim.value in existing;
      SameId(existing, start, before + [d], claim.value);
      forall id | id in after.server && (id in after.consumed || !OfListing(existing, id)) ensures after.server[id] in before + [d] {
        if id == claim.value.id && claim.value.policy == d {
          assert id in s.consumed || s.server[id] == d;
        }
      }
    }
  }

  lemma SameId(existing: seq<Listed>, server: Server, desired: seq<Policy>, c: Listed)
    requires Faithful(existing, server, desired) && c in existing
    ensures forall e :: e in existing && e.id == c.id ==> e == c
  {
  }

  lemma {:induction false} LoopIsPartial(existing: seq<Listed>, start: Server, desired: seq<Policy>)
    requires Faithful(existing, start, desired)
    ensures Partial(existing, SyncAll(existing, start, desired), desired)
  {
    if desired == [] {
      forall id | id in start ensures OfListing(existing, id) {
        assert Listed(id, start[id]) in existing;
      }
    } else {
      var before, d := desired[..|desired| - 1], desired[|desired| - 1];
      FaithfulPrefix(existing, start, desired);
      LoopIsPartial(existing, start, before);
      assert desired == before + [d];
      StepIsPartial(existing, start, before, SyncAll(existing, start, before), d);
    }
  }

  /** Claimed and new policies. */
  ghost function Held(existing: seq<Listed>, s: Sync): set<PolicyId> {
    set id | id in s.server && (id in s.consumed || !OfListing(existing, id))
  }

  ghost predicate HeldSomewhere(existing: seq<Listed>, s: Sync, d: Policy) {
    exists id :: id in Held(existing, s) && s.server[id] == d
  }

  /** How one desired policy changes what is held. */
  lemma HeldGrows(existing: seq<Listed>, start: Server, before: seq<Policy>, s: Sync, d: Policy)
    requires Faithful(existing, start, before + [d]) && Partial(existing, s, before)
    ensures var after, claim := SyncOne(existing, s, d), Claim(existing, s.consumed, d);
      Held(existing, after) == Held(existing, s) + {if claim == None then FreshId(s.server, existing) else claim.value.id}
  {
  }

  lemma StepHolds(existing: seq<Listed>, start: Server, before: seq<Policy>, s: Sync, d: Policy, x: Policy)
    requires Faithful(existing, start, before + [d]) && Partial(existing, s, before)
    requires Claim(existing, s.consumed, d) == None || Claim(existing, s.consumed, d).value.id !in s.consumed
    requires x == d || HeldSomewhere(existing, s, x)
    ensures HeldSomewhere(existing, SyncOne(existing, s, d), x)
  {
    var after, claim := SyncOne(existing, s, d), Claim(existing, s.consumed, d);
    HeldGrows(existing, start, before, s, d);
    if x == d {
      var id := if claim == None then FreshId(s.server, existing) else claim.value.id;
      assert id in Held(existing, after) && after.server[id] == d;
    } else {
      var id :| id in Held(existing, s) && s.server[id] == x;
      if claim != None {
        assert claim.value in existing && OfListing(existing, claim.value.id);
      }
      assert id in Held(existing, after) && after.server[id] == x;
    }
  }

  lemma {:induction false} EachIsHeld(existing: seq<Listed>, start: Server, desired: seq<Policy>, x: Policy)
    requires Faithful(existing, start, desired) && NoDoubleClaim(existing, start, desired) && x in desired
    ensures HeldSomewhere(existing, SyncAll(existing, start, desired), x)
  {
    var before, d := desired[..|desired| - 1], desired[|desired| - 1];
    FaithfulPrefix(existing, start, desired);
    LoopIsPartial(existing, start, before);
    assert desired == before + [d];
    if x in before {
      EachIsHeld(existing, start, before, x);
    }
    StepHolds(existing, start, before, SyncAll(existing, start, before), d, x);
  }

  /** Each desired policy holds at most one policy of its own; a double claim leaves one too few. */
  lemma {:induction false} HeldCount(existing: seq<Listed>, start: Server, desired: seq<Policy>)
    requires Faithful(existing, start, desired)
    ensures |Held(existing, SyncAll(existing, start, desired))| <= |desired|
    ensures !NoDoubleClaim(existing, start, desired) ==> |Held(existing, SyncAll(existing, start, desired))| < |desired|
  {
    if desired == [] {
      LoopIsPartial(existing, start, desired);
      assert Held(existing, SyncAll(existing, start, [])) == {};
    } else {
      var before, d := desired[..|desired| - 1], desired[|desired| - 1];
      FaithfulPrefix(existing, start, desired);
      LoopIsPartial(existing, start, before);
      assert desired == before + [d];
      HeldCount(existing, start, before);
      var s := SyncAll(existing, start, before);
      HeldGrows(existing, start, before, s, d);
      var claim := Claim(existing, s.consumed, d);
      if claim != None && claim.value.id in s.consumed {
        assert claim.value in existing;
        assert claim.value.id in Held(existing, s);
      }
    }
  }

  ghost function Managed(server: Server): set<Policy> {
    set id | id in server && server[id].managed :: server[id]
  }

  ghost function All(desired: seq<Policy>): set<Policy> {
    set d | d in desired
  }

  /** The server after the deletions. */
  function Final(existing: seq<Listed>, start: Server, desired: seq<Policy>): Server {
    var s := SyncAll(existing, start, desired);
    s.server - ObsoleteIds(existing, desired, s.consumed)
  }

  /** What is managed afterwards is held, and desired. */
  lemma ManagedIsHeld(existing: seq<Listed>, start: Server, desired: seq<Policy>, id: PolicyId)
    requires Faithful(existing, start, desired) && id in Final(existing, start, desired) && Final(existing, start, desired)[id].managed
    ensures id in Held(existing, SyncAll(existing, start, desired)) && Final(existing, start, desired)[id] in desired
  {
    var s := SyncAll(existing, start, desired);
    LoopIsPartial(existing, start, desired);
    forall e | e in existing && e.id !in s.consumed && e.policy.managed ensures e.id in ObsoleteIds(existing, desired, s.consumed) {
      UnclaimedIsObsolete(existing, s, desired, e);
    }
  }

  lemma UnclaimedIsObsolete(existing: seq<Listed>, s: Sync, desired: seq<Policy>, e: Listed)
    requires Partial(existing, s, desired) && e in existing && e.id !in s.consumed && e.policy.managed
    ensures IsObsolete(desired, s.consumed, e)
  {
  }

  lemma HeldIsKept(existing: seq<Listed>, start: Server, desired: seq<Policy>, id: PolicyId)
    requires Faithful(existing, start, desired) && id in Held(existing, SyncAll(existing, start, desired))
    ensures id in Final(existing, start, desired) && Final(existing, start, desired)[id] == SyncAll(existing, start, desired).server[id]
  {
  }

  lemma {:induction false} ImageIsNoLarger(server: Server, ids: set<PolicyId>)
    requires ids <= server.Keys
    ensures |set id | id in ids :: server[id]| <= |ids|
    decreases |ids|
  {
    if ids != {} {
      var x :| x in ids;
      ImageIsNoLarger(server, ids - {x});
      assert (set id | id in ids :: server[id]) == (set id | id in ids - {x} :: server[id]) + {server[x]};
    } else {
      assert (set id | id in ids :: server[id]) == {};
    }
  }

  lemma {:induction false} DistinctCount(desired: seq<Policy>)
    requires forall i, j :: 0 <= i < j < |desired| ==> desired[i].name != desired[j].name
    ensures |All(desired)| == |desired|
  {
    if desired != [] {
      var before, d := desired[..|desired| - 1], desired[|desired| - 1];
      DistinctCount(before);
      assert All(desired) == All(before) + {d} && d !in before;
    }
  }

  /** Convergence, exactly: one synchronisation makes the managed policies the desired ones if and
      only if they are not contested. It never leaves a managed policy that is not desired. */
  lemma SynchronizesExactly(existing: seq<Listed>, start: Server, desired: seq<Policy>)
    requires Faithful(existing, start, desired)
    ensures Managed(Final(existing, start, desired)) <= All(desired)
    ensures Managed(Final(existing, start, desired)) == All(desired) <==> !Contested(existing, desired)
  {
    NoDoubleClaimExactly(existing, start, desired);
    var s, after := SyncAll(existing, start, desired), Final(existing, start, desired);
    forall id | id in after && after[id].managed ensures id in Held(existing, s) && after[id] in desired {
      ManagedIsHeld(existing, start, desired, id);
    }
    if NoDoubleClaim(existing, start, desired) {
      forall d | d in desired ensures d in Managed(after) {
        EachIsHeld(existing, start, desired, d);
        var id :| id in Held(existing, s) && s.server[id] == d;
        HeldIsKept(existing, start, desired, id);
        assert after[id].managed;
      }
    } else {
      HeldCount(existing, start, desired);
      DistinctCount(desired);
      var held := set id | id in Held(existing, s) :: s.server[id];
      ImageIsNoLarger(s.server, Held(existing, s));
      assert Managed(after) <= held;
      if Managed(after) == All(desired) {
        SubsetIsNoLarger(All(desired), held);
      }
    }
  }

  lemma {:induction false} SubsetIsNoLarger(a: set<Policy>, b: set<Policy>)
    requires a <= b
    ensures |a| <= |b|
  {
    if a != {} {
      var x :| x in a;
      SubsetIsNoLarger(a - {x}, b - {x});
    }
  }

  /** A second synchronisation of a server that shows the desired policies writes nothing. */
  lemma {:induction false} SecondWritesNothing(existing: seq<Listed>, server: Server, desired: seq<Policy>, all: seq<Policy>)
    requires Faithful(existing, server, desired) && All(all) == Managed(server) && All(desired) <= All(all)
    ensures var s := SyncAll(existing, server, desired);
      s.server == server && s.created == 0 && s.updated == 0 && s.same == |desired|
  {
    if desired != [] {
      var before, d := desired[..|desired| - 1], desired[|desired| - 1];
      FaithfulPrefix(existing, server, desired);
      assert forall x :: x in before ==> x in desired;
      SecondWritesNothing(existing, server, before, all);
      assert d in All(desired) && d in Managed(server);
      var id :| id in server && server[id] == d;
      UniqueName(existing, server, desired, Listed(id, d));
    }
  }

  /** Idempotence: after a convergent synchronisation, the next one creates, updates and deletes
      nothing, whatever the order of the new listing. */
  lemma SynchronizesOnce(existing: seq<Listed>, start: Server, desired: seq<Policy>, again: seq<Listed>)
    requires Faithful(existing, start, desired) && !Contested(existing, desired)
    requires Faithful(again, Final(existing, start, desired), desired)
    ensures var s := SyncAll(again, Final(existing, start, desired), desired);
      && s.created == 0 && s.updated == 0 && s.same == |desired|
      && Final(again, Final(existing, start, desired), desired) == Final(existing, start, desired)
      && ObsoleteIds(again, desired, s.consumed) == {}
  {
    var after := Final(existing, start, desired);
    SynchronizesExactly(existing, start, desired);
    SecondWritesNothing(again, after, desired, desired);
    var s := SyncAll(again, after, desired);
    forall e | e in again ensures !IsObsolete(desired, s.consumed, e) {
      if e.policy.managed {
        assert e.policy in Managed(after);
        assert e.policy in desired;
      }
    }
    assert ObsoleteIds(again, desired, s.consumed) == {};
    assert after - {} == after;
  }

  /** A contested case: policy 2 on resource 5 is listed, and policy 1 on resource 5 and policy 2 on
      resource 6 are desired. Policy 1 takes the listed one, policy 2 takes it again, and 1 is lost. */
  lemma DoubleClaimLosesAPolicy(content: nat)
    ensures var listed, first, second := Policy(2, true, 5, content), Policy(1, true, 5, content), Policy(2, true, 6, content);
      Managed(Final([Listed(1, listed)], map[1 := listed], [first, second])) != All([first, second])
  {
    var listed, first, second := Policy(2, true, 5, content), Policy(1, true, 5, content), Policy(2, true, 6, content);
    var existing, start, desired := [Listed(1, listed)], map[1 := listed], [first, second];
    assert Listed(1, start[1]) == existing[0];
    assert Faithful(existing, start, desired);
    assert ContestedAt(existing, desired, 0, 1, 0);
    SynchronizesExactly(existing, start, desired);
  }
}
