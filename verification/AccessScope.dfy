/**
 Who sees whom: the walk over the divisions an employee manages, and the read, pay and write
 scopes built on it. The parent column is any relation, cycles and dangling ids included.
 */
module AccessScope {
  import opened Common

  datatype Division = Division(id: Id, parent: Option<Id>, manager: Option<Id>, deputy: Option<Id>)
  datatype Employee = Employee(id: Id, user: Id, division: Option<Id>)

  // ----- Reachability, stated without a walk

  predicate Manages(d: Division, employee: Id) {
    d.manager == Some(employee) || d.deputy == Some(employee)
  }

  ghost function Ids(divisions: seq<Division>): set<Id> {
    set d | d in divisions :: d.id
  }

  ghost function Roots(divisions: seq<Division>, employee: Id): set<Id> {
    set d | d in divisions && Manages(d, employee) :: d.id
  }

  ghost function Children(divisions: seq<Division>, parent: Id): set<Id> {
    set d | d in divisions && d.parent == Some(parent) :: d.id
  }

  /** The divisions at most `n` child links below a managed one. */
  ghost function Within(divisions: seq<Division>, employee: Id, n: nat): set<Id> {
    if n == 0 then Roots(divisions, employee)
    else
      var near := Within(divisions, employee, n - 1);
      near + set d | d in divisions && d.parent.Some? && d.parent.value in near :: d.id
  }

  ghost predicate Reachable(divisions: seq<Division>, employee: Id, id: Id) {
    exists n: nat :: id in Within(divisions, employee, n)
  }

  /** `id` is exactly `n` links away from the nearest managed division. */
  ghost predicate AtDistance(divisions: seq<Division>, employee: Id, id: Id, n: nat) {
    id in Within(divisions, employee, n) && (n > 0 ==> id !in Within(divisions, employee, n - 1))
  }

  lemma {:induction false} WithinGrows(divisions: seq<Division>, employee: Id, m: nat, n: nat)
    requires m <= n
    ensures Within(divisions, employee, m) <= Within(divisions, employee, n)
    decreases n - m
  {
    if m < n {
      WithinGrows(divisions, employee, m, n - 1);
    }
  }

  lemma DistanceIsUnique(divisions: seq<Division>, employee: Id, id: Id, m: nat, n: nat)
    requires AtDistance(divisions, employee, id, m) && AtDistance(divisions, employee, id, n)
    ensures m == n
  {
    if m < n {
      WithinGrows(divisions, employee, m, n - 1);
    } else if n < m {
      WithinGrows(divisions, employee, n, m - 1);
    }
  }

  lemma ChildIsWithin(divisions: seq<Division>, employee: Id, parent: Id, child: Id, n: nat)
    requires parent in Within(divisions, employee, n) && child in Children(divisions, parent)
    ensures child in Within(divisions, employee, n + 1)
  {
  }

  lemma {:induction false} WithinTheTenant(divisions: seq<Division>, employee: Id, n: nat)
    ensures Within(divisions, employee, n) <= Ids(divisions)
  {
    if n > 0 {
      WithinTheTenant(divisions, employee, n - 1);
    }
  }

  // ----- The walk

  method ManagedRoots(divisions: seq<Division>, employee: Id) returns (roots: seq<Id>)
    ensures forall id :: id in roots <==> id in Roots(divisions, employee)
  {
    roots := [];
    for i := 0 to |divisions|
      invariant forall id :: id in roots <==> id in Roots(divisions[..i], employee)
    {
      assert divisions[..i + 1] == divisions[..i] + [divisions[i]];
      if Manages(divisions[i], employee) {
        roots := roots + [divisions[i].id];
      }
    }
    assert divisions[..|divisions|] == divisions;
  }

  lemma OneMoreDivision(divisions: seq<Division>, d: Division)
    ensures forall p, id :: id in Children(divisions + [d], p) <==>
                            id in Children(divisions, p) || (d.parent == Some(p) && id == d.id)
  {
    forall p, id | id in Children(divisions, p) ensures id in Children(divisions + [d], p) {
      var e :| e in divisions && e.parent == Some(p) && e.id == id;
      assert e in divisions + [d];
    }
    assert d in divisions + [d];
  }

  method ChildrenMap(divisions: seq<Division>) returns (children: map<Id, seq<Id>>)
    ensures forall p, id :: (p in children && id in children[p]) <==> id in Children(divisions, p)
  {
    children := map[];
    for i := 0 to |divisions|
      invariant forall p, id :: (p in children && id in children[p]) <==> id in Children(divisions[..i], p)
    {
      assert divisions[..i + 1] == divisions[..i] + [divisions[i]];
      OneMoreDivision(divisions[..i], divisions[i]);
      if divisions[i].parent.Some? {
        var p := divisions[i].parent.value;
        children := children[p := (if p in children then children[p] else []) + [divisions[i].id]];
      }
    }
    assert divisions[..|divisions|] == divisions;
  }

  ghost predicate NoRepeats(ids: seq<Id>) {
    forall i, j :: 0 <= i < j < |ids| ==> ids[i] != ids[j]
  }

  ghost predicate Ascending(ns: seq<nat>) {
    forall i, j :: 0 <= i < j < |ns| ==> ns[i] <= ns[j]
  }

  /** Every listed division with the distance it is listed at. */
  ghost predicate Distances(divisions: seq<Division>, employee: Id, ids: seq<Id>, ns: seq<nat>) {
    |ids| == |ns| && forall i :: 0 <= i < |ids| ==> AtDistance(divisions, employee, ids[i], ns[i])
  }

  ghost predicate Listing(divisions: seq<Division>, employee: Id, ids: seq<Id>, ns: seq<nat>) {
    Distances(divisions, employee, ids, ns) && Ascending(ns) && NoRepeats(ids)
  }

  lemma ListOne(divisions: seq<Division>, employee: Id, ids: seq<Id>, ns: seq<nat>, id: Id, n: nat)
    requires Listing(divisions, employee, ids, ns)
    requires id !in ids && AtDistance(divisions, employee, id, n) && (ns != [] ==> ns[|ns| - 1] <= n)
    ensures Listing(divisions, employee, ids + [id], ns + [n])
  {
    hide AtDistance;
  }

  /** A division is listed already, or waits in the queue at distance `n` or less. */
  ghost predicate Pending(id: Id, listed: seq<Id>, queue: seq<Id>, far: seq<nat>, n: nat)
    requires |queue| == |far|
  {
    id in listed || exists k :: 0 <= k < |queue| && queue[k] == id && far[k] <= n
  }

  /** The queue: distances ascend by at most one, and each entry is that close to a root. */
  ghost predicate Waiting(divisions: seq<Division>, employee: Id, queue: seq<Id>, far: seq<nat>) {
    && |queue| == |far| && Ascending(far)
    && (far != [] ==> far[|far| - 1] <= far[0] + 1)
    && (forall k :: 0 <= k < |queue| ==> queue[k] in Within(divisions, employee, far[k]))
  }

  /** No root and no child of a listed division has been forgotten. */
  ghost predicate Complete(divisions: seq<Division>, employee: Id, listed: seq<Id>, ns: seq<nat>, queue: seq<Id>,
                           far: seq<nat>)
    requires |queue| == |far| && |listed| == |ns|
  {
    && (forall id :: id in Roots(divisions, employee) ==> Pending(id, listed, queue, far, 0))
    && (forall i, id :: 0 <= i < |listed| && id in Children(divisions, listed[i]) ==>
          Pending(id, listed, queue, far, ns[i] + 1))
  }

  lemma AtMostThere(divisions: seq<Division>, employee: Id, id: Id, m: nat, n: nat)
    requires AtDistance(divisions, employee, id, m) && id in Within(divisions, employee, n)
    ensures m <= n
  {
    if m > n {
      WithinGrows(divisions, employee, n, m - 1);
    }
  }

  lemma ChildIsListed(divisions: seq<Division>, employee: Id, listed: seq<Id>, ns: seq<nat>, queue: seq<Id>,
                      far: seq<nat>, parent: Id, id: Id, n: nat)
    requires Waiting(divisions, employee, queue, far)
    requires Distances(divisions, employee, listed, ns)
    requires Complete(divisions, employee, listed, ns, queue, far)
    requires far != [] ==> n + 1 < far[0]
    requires parent in listed && parent in Within(divisions, employee, n) && id in Children(divisions, parent)
    ensures id in listed
  {
    hide Within, AtDistance, Children, Roots;
    var i :| 0 <= i < |listed| && listed[i] == parent;
    AtMostThere(divisions, employee, parent, ns[i], n);
    assert Pending(id, listed, queue, far, ns[i] + 1);
  }

  /** Everything closer to the roots than the queue's entries is listed. */
  lemma {:induction false} CloserIsListed(divisions: seq<Division>, employee: Id, listed: seq<Id>, ns: seq<nat>,
                                          queue: seq<Id>, far: seq<nat>, n: nat)
    requires Waiting(divisions, employee, queue, far)
    requires Distances(divisions, employee, listed, ns)
    requires Complete(divisions, employee, listed, ns, queue, far)
    requires far != [] ==> n < far[0]
    ensures forall id :: id in Within(divisions, employee, n) ==> id in listed
  {
    if n > 0 {
      CloserIsListed(divisions, employee, listed, ns, queue, far, n - 1);
      forall id | id in Within(divisions, employee, n) && id !in Within(divisions, employee, n - 1)
        ensures id in listed
      {
        var d :| d in divisions && d.parent.Some? && d.parent.value in Within(divisions, employee, n - 1) && d.id == id;
        hide Waiting, Distances, Complete, Within;
        ChildIsListed(divisions, employee, listed, ns, queue, far, d.parent.value, id, n - 1);
      }
    }
  }

  lemma PendingAfter(id: Id, listed: seq<Id>, listed': seq<Id>, queue: seq<Id>, queue': seq<Id>, far: seq<nat>,
                     far': seq<nat>, n: nat)
    requires |queue| == |far| > 0 && |queue'| == |far'|
    requires listed <= listed' && queue[0] in listed' && queue[1..] <= queue' && far[1..] <= far'
    requires Pending(id, listed, queue, far, n)
    ensures Pending(id, listed', queue', far', n)
  {
    if id in listed {
      var i :| 0 <= i < |listed| && listed[i] == id;
      assert listed'[i] == id;
    } else {
      var k :| 0 <= k < |queue| && queue[k] == id && far[k] <= n;
      if k > 0 {
        assert queue'[k - 1] == queue[1..][k - 1] == id && far'[k - 1] == far[1..][k - 1];
      }
    }
  }

  lemma StepKeepsComplete(divisions: seq<Division>, employee: Id, listed: seq<Id>, listed': seq<Id>, ns: seq<nat>,
                          ns': seq<nat>, queue: seq<Id>, queue': seq<Id>, far: seq<nat>, far': seq<nat>)
    requires |queue| == |far| > 0 && |queue'| == |far'| && |listed| == |ns| && |listed'| == |ns'|
    requires listed <= listed' && ns <= ns' && queue[0] in listed' && queue[1..] <= queue' && far[1..] <= far'
    requires Complete(divisions, employee, listed, ns, queue, far)
    requires forall i, id :: |listed| <= i < |listed'| && id in Children(divisions, listed'[i]) ==>
               Pending(id, listed', queue', far', ns'[i] + 1)
    ensures Complete(divisions, employee, listed', ns', queue', far')
  {
    forall id | id in Roots(divisions, employee) ensures Pending(id, listed', queue', far', 0) {
      PendingAfter(id, listed, listed', queue, queue', far, far', 0);
    }
    forall i, id | 0 <= i < |listed'| && id in Children(divisions, listed'[i])
      ensures Pending(id, listed', queue', far', ns'[i] + 1)
    {
      if i < |listed| {
        PendingAfter(id, listed, listed', queue, queue', far, far', ns[i] + 1);
      }
    }
  }

  /** The walk's whole state between two rounds. */
  ghost predicate Walking(divisions: seq<Division>, employee: Id, listed: seq<Id>, ns: seq<nat>, queue: seq<Id>,
                          far: seq<nat>)
  {
    && Waiting(divisions, employee, queue, far)
    && Listing(divisions, employee, listed, ns)
    && (ns != [] && far != [] ==> ns[|ns| - 1] <= far[0])
    && Complete(divisions, employee, listed, ns, queue, far)
  }

  lemma SkipSeen(divisions: seq<Division>, employee: Id, listed: seq<Id>, ns: seq<nat>, queue: seq<Id>, far: seq<nat>)
    requires Walking(divisions, employee, listed, ns, queue, far)
    requires queue != [] && queue[0] in listed
    ensures Walking(divisions, employee, listed, ns, queue[1..], far[1..])
  {
    StepKeepsComplete(divisions, employee, listed, listed, ns, ns, queue, queue[1..], far, far[1..]);
  }

  /** An entry that is not listed yet is as far away as the queue says. */
  lemma NearestFirst(divisions: seq<Division>, employee: Id, listed: seq<Id>, ns: seq<nat>, queue: seq<Id>,
                     far: seq<nat>)
    requires Walking(divisions, employee, listed, ns, queue, far)
    requires queue != [] && queue[0] !in listed
    ensures AtDistance(divisions, employee, queue[0], far[0])
  {
    if far[0] > 0 {
      CloserIsListed(divisions, employee, listed, ns, queue, far, far[0] - 1);
    }
  }

  lemma VisitCompletes(divisions: seq<Division>, employee: Id, listed: seq<Id>, ns: seq<nat>, queue: seq<Id>,
                       far: seq<nat>, children: seq<Id>, hops: seq<nat>)
    requires |listed| == |ns| && |queue| == |far| && queue != []
    requires Complete(divisions, employee, listed, ns, queue, far)
    requires forall id :: id in children <==> id in Children(divisions, queue[0])
    requires |hops| == |children| && forall k :: 0 <= k < |hops| ==> hops[k] == far[0] + 1
    ensures Complete(divisions, employee, listed + [queue[0]], ns + [far[0]], queue[1..] + children, far[1..] + hops)
  {
    var listed', ns', queue', far' := listed + [queue[0]], ns + [far[0]], queue[1..] + children, far[1..] + hops;
    forall id | id in Children(divisions, queue[0]) ensures Pending(id, listed', queue', far', far[0] + 1) {
      var k :| 0 <= k < |children| && children[k] == id;
      assert queue'[|queue| - 1 + k] == id && far'[|queue| - 1 + k] == far[0] + 1;
    }
    StepKeepsComplete(divisions, employee, listed, listed', ns, ns', queue, queue', far, far');
  }

  lemma VisitUnseen(divisions: seq<Division>, employee: Id, listed: seq<Id>, ns: seq<nat>, queue: seq<Id>,
                    far: seq<nat>, children: seq<Id>, hops: seq<nat>)
    requires Walking(divisions, employee, listed, ns, queue, far)
    requires queue != [] && queue[0] !in listed
    requires forall id :: id in children <==> id in Children(divisions, queue[0])
    requires |hops| == |children| && forall k :: 0 <= k < |hops| ==> hops[k] == far[0] + 1
    ensures Walking(divisions, employee, listed + [queue[0]], ns + [far[0]], queue[1..] + children, far[1..] + hops)
  {
    NearestFirst(divisions, employee, listed, ns, queue, far);
    assert forall k :: 0 <= k < |far[1..] + hops| ==> far[0] <= (far[1..] + hops)[k];
    hide Complete, AtDistance, Waiting, Listing, Children;
    ListOne(divisions, employee, listed, ns, queue[0], far[0]);
    VisitCompletes(divisions, employee, listed, ns, queue, far, children, hops);
    VisitedQueue(divisions, employee, queue, far, children, hops);
  }

  lemma VisitedQueue(divisions: seq<Division>, employee: Id, queue: seq<Id>, far: seq<nat>, children: seq<Id>,
                     hops: seq<nat>)
    requires Waiting(divisions, employee, queue, far) && queue != []
    requires forall id :: id in children <==> id in Children(divisions, queue[0])
    requires |hops| == |children| && forall k :: 0 <= k < |hops| ==> hops[k] == far[0] + 1
    ensures Waiting(divisions, employee, queue[1..] + children, far[1..] + hops)
  {
    hide Within, Children;
    forall k | 0 <= k < |children| ensures children[k] in Within(divisions, employee, far[0] + 1) {
      assert children[k] in children;
      ChildIsWithin(divisions, employee, queue[0], children[k], far[0]);
    }
  }

  lemma {:induction false} WalkedAll(divisions: seq<Division>, employee: Id, listed: seq<Id>, ns: seq<nat>, id: Id)
    requires Walking(divisions, employee, listed, ns, [], [])
    ensures id in listed <==> Reachable(divisions, employee, id)
  {
    if id in listed {
      var i :| 0 <= i < |listed| && listed[i] == id;
      assert id in Within(divisions, employee, ns[i]);
    }
    if Reachable(divisions, employee, id) {
      var n: nat :| id in Within(divisions, employee, n);
      CloserIsListed(divisions, employee, listed, ns, [], [], n);
    }
  }

  /**
   The ids of the managed subtree: exactly the reachable divisions, each once, nearest first
   (`ns` holds the distances). The loop ends on every parent relation: each round either lists
   one more division or shortens the queue.
   */
  method ManagedDivisionIds(divisions: seq<Division>, employee: Id) returns (subtree: seq<Id>, ghost ns: seq<nat>)
    ensures forall id :: id in subtree <==> Reachable(divisions, employee, id)
    ensures NoRepeats(subtree)
    ensures Distances(divisions, employee, subtree, ns) && Ascending(ns)
  {
    hide *;
    subtree, ns := [], [];
    var queue := ManagedRoots(divisions, employee);
    ghost var far: seq<nat> := seq(|queue|, _ => 0);
    StartWalking(divisions, employee, queue, far);
    if queue == [] {
      assert far == [];
      Finished(divisions, employee, subtree, ns);
      return;
    }
    var children := ChildrenMap(divisions);
    var seen: set<Id> := {};
    while queue != []
      invariant |far| == |queue|
      invariant Walking(divisions, employee, subtree, ns, queue, far)
      invariant forall id :: id in seen <==> id in subtree
      decreases Ids(divisions) - seen, |queue|
    {
      var current := queue[0];
      InTheTenant(divisions, employee, subtree, ns, queue, far);
      if current in seen {
        SkipSeen(divisions, employee, subtree, ns, queue, far);
        queue, far := queue[1..], far[1..];
      } else {
        var below := if current in children then children[current] else [];
        ghost var hops: seq<nat> := seq(|below|, _ => far[0] + 1);
        VisitUnseen(divisions, employee, subtree, ns, queue, far, below, hops);
        seen := seen + {current};
        subtree, ns := subtree + [current], ns + [far[0]];
        queue, far := queue[1..] + below, far[1..] + hops;
      }
    }
    assert far == [];
    Finished(divisions, employee, subtree, ns);
  }

  lemma InTheTenant(divisions: seq<Division>, employee: Id, listed: seq<Id>, ns: seq<nat>, queue: seq<Id>,
                    far: seq<nat>)
    requires Walking(divisions, employee, listed, ns, queue, far) && queue != []
    ensures queue[0] in Ids(divisions)
  {
    WithinTheTenant(divisions, employee, far[0]);
  }

  lemma StartWalking(divisions: seq<Division>, employee: Id, queue: seq<Id>, far: seq<nat>)
    requires forall id :: id in queue <==> id in Roots(divisions, employee)
    requires |far| == |queue| && forall k :: 0 <= k < |far| ==> far[k] == 0
    ensures Walking(divisions, employee, [], [], queue, far)
  {
    hide Roots;
    assert forall id :: id in queue ==> id in Roots(divisions, employee);
    assert forall k :: 0 <= k < |queue| ==> queue[k] in Within(divisions, employee, far[k]);
  }

  lemma Finished(divisions: seq<Division>, employee: Id, listed: seq<Id>, ns: seq<nat>)
    requires Walking(divisions, employee, listed, ns, [], [])
    ensures forall id :: id in listed <==> Reachable(divisions, employee, id)
    ensures NoRepeats(listed) && Distances(divisions, employee, listed, ns) && Ascending(ns)
  {
    forall id ensures id in listed <==> Reachable(divisions, employee, id) {
      WalkedAll(divisions, employee, listed, ns, id);
    }
  }

  // ----- Chains of divisions

  /** From a division the employee manages or deputises down to the last one, parent by parent. */
  ghost predicate Chain(divisions: seq<Division>, employee: Id, chain: seq<Division>) {
    && chain != [] && (forall d :: d in chain ==> d in divisions)
    && (chain[0].manager == Some(employee) || chain[0].deputy == Some(employee))
    && forall i :: 0 < i < |chain| ==> chain[i].parent == Some(chain[i - 1].id)
  }

  /** The managed subtree is exactly the divisions such a chain leads to, those of a deputy included. */
  lemma ReachableByChain(divisions: seq<Division>, employee: Id, id: Id)
    ensures Reachable(divisions, employee, id) <==>
            exists chain: seq<Division> :: Chain(divisions, employee, chain) && chain[|chain| - 1].id == id
  {
    if Reachable(divisions, employee, id) {
      var n: nat :| id in Within(divisions, employee, n);
      var chain := ChainTo(divisions, employee, id, n);
    }
    if exists chain: seq<Division> :: Chain(divisions, employee, chain) && chain[|chain| - 1].id == id {
      var chain: seq<Division> :| Chain(divisions, employee, chain) && chain[|chain| - 1].id == id;
      ChainEnds(divisions, employee, chain);
    }
  }

  lemma {:induction false} ChainTo(divisions: seq<Division>, employee: Id, id: Id, n: nat)
    returns (chain: seq<Division>)
    requires id in Within(divisions, employee, n)
    ensures Chain(divisions, employee, chain) && chain[|chain| - 1].id == id
    decreases n
  {
    if n == 0 {
      var d :| d in divisions && Manages(d, employee) && d.id == id;
      chain := [d];
    } else if id in Within(divisions, employee, n - 1) {
      chain := ChainTo(divisions, employee, id, n - 1);
    } else {
      var d :| d in divisions && d.parent.Some? && d.parent.value in Within(divisions, employee, n - 1) && d.id == id;
      var above := ChainTo(divisions, employee, d.parent.value, n - 1);
      chain := above + [d];
    }
  }

  lemma {:induction false} ChainEnds(divisions: seq<Division>, employee: Id, chain: seq<Division>)
    requires Chain(divisions, employee, chain)
    ensures chain[|chain| - 1].id in Within(divisions, employee, |chain| - 1)
  {
    var n := |chain| - 1;
    assert chain[n] in divisions;
    if n > 0 {
      assert chain[..n][n - 1] == chain[n - 1];
      ChainEnds(divisions, employee, chain[..n]);
    }
  }

  // ----- Read, pay and write scopes

  datatype Caller = Caller(user: Id, roles: set<string>)

  predicate AdminLevel(roles: set<string>) {
    "admin" in roles || "hr" in roles || "platform_admin" in roles
  }

  /** The tenant's rows: divisions, employees, and the role codes of each user. */
  datatype Tenant = Tenant(divisions: seq<Division>, employees: seq<Employee>, roles: map<Id, set<string>>)

  ghost predicate IsOwnRecord(t: Tenant, caller: Caller, e: Employee) {
    e in t.employees && e.user == caller.user
  }

  /** A user has at most one employee record in a tenant. */
  ghost predicate OneRecordPerUser(t: Tenant) {
    forall i, j :: 0 <= i < j < |t.employees| ==> t.employees[i].user != t.employees[j].user
  }

  /** `target` is the caller's own record, or sits in a division reachable from one the caller heads. */
  ghost predicate InReach(t: Tenant, caller: Caller, target: Id) {
    exists own, e :: IsOwnRecord(t, caller, own) && e in t.employees && e.id == target
      && (e == own || (e.division.Some? && Reachable(t.divisions, own.id, e.division.value)))
  }

  method CurrentEmployee(t: Tenant, caller: Caller) returns (own: Option<Employee>)
    ensures own.Some? ==> IsOwnRecord(t, caller, own.value)
    ensures own.None? ==> forall e :: !IsOwnRecord(t, caller, e)
  {
    for i := 0 to |t.employees|
      invariant forall e :: e in t.employees[..i] ==> e.user != caller.user
    {
      if t.employees[i].user == caller.user {
        return Some(t.employees[i]);
      }
    }
    return None;
  }

  /** `None` puts no restriction; otherwise exactly the records in the caller's reach. */
  method VisibleEmployeeIds(t: Tenant, caller: Caller) returns (visible: Option<set<Id>>)
    requires OneRecordPerUser(t)
    ensures visible.None? <==> "admin" in caller.roles || "hr" in caller.roles || "platform_admin" in caller.roles
    ensures visible.Some? ==> forall id :: id in visible.value <==> InReach(t, caller, id)
  {
    if AdminLevel(caller.roles) {
      return None;
    }
    var own := CurrentEmployee(t, caller);
    if own.None? {
      return Some({});
    }
    var divisions, _ := ManagedDivisionIds(t.divisions, own.value.id);
    var ids := {own.value.id};
    for i := 0 to |t.employees|
      invariant forall id :: id in ids <==> (id == own.value.id ||
                  exists e :: e in t.employees[..i] && e.id == id && e.division.Some? && e.division.value in divisions)
    {
      var e := t.employees[i];
      assert t.employees[..i + 1] == t.employees[..i] + [e];
      if e.division.Some? && e.division.value in divisions {
        ids := ids + {e.id};
      }
    }
    assert t.employees[..|t.employees|] == t.employees;
    forall id ensures id in ids <==> InReach(t, caller, id) {
      ReachOf(t, caller, own.value, divisions, id);
    }
    return Some(ids);
  }

  lemma ReachOf(t: Tenant, caller: Caller, own: Employee, divisions: seq<Id>, target: Id)
    requires OneRecordPerUser(t) && IsOwnRecord(t, caller, own)
    requires forall d :: d in divisions <==> Reachable(t.divisions, own.id, d)
    ensures InReach(t, caller, target) <==>
            (target == own.id
             || exists e :: e in t.employees && e.id == target && e.division.Some? && e.division.value in divisions)
  {
    assert forall e :: IsOwnRecord(t, caller, e) ==> e == own;
  }

  predicate UserIsAdminLevel(t: Tenant, user: Id) {
    user in t.roles && AdminLevel(t.roles[user])
  }

  /** Whose pay an aggregate counts: the read scope without the admin-level people. */
  method PayVisibleEmployeeIds(t: Tenant, caller: Caller) returns (visible: Option<set<Id>>)
    requires OneRecordPerUser(t)
    ensures visible.None? <==> !(caller.roles !! {"admin", "hr", "platform_admin"})
    ensures visible.Some? ==> forall id :: id in visible.value <==>
              InReach(t, caller, id) && forall e :: e in t.employees && e.id == id && e.user in t.roles ==>
                                          t.roles[e.user] !! {"admin", "hr", "platform_admin"}
  {
    visible := VisibleEmployeeIds(t, caller);
    if visible.None? || visible.value == {} {
      return;
    }
    var admins := set e | e in t.employees && e.id in visible.value && UserIsAdminLevel(t, e.user) :: e.id;
    visible := Some(visible.value - admins);
  }

  datatype Verdict = Allowed | WriteForbidden | OutsideScope

  /** `level` is what the section matrix gives the caller on the employees section. */
  method AssertEmployeeWriteScope(t: Tenant, caller: Caller, level: string, target: Employee) returns (verdict: Verdict)
    requires OneRecordPerUser(t)
    ensures verdict == Allowed <==>
              level == "manage" && (!(caller.roles !! {"admin", "hr", "platform_admin"}) ||
                (InReach(t, caller, target.id) &&
                 (target.user in t.roles ==> t.roles[target.user] !! {"admin", "hr", "platform_admin"})))
    ensures verdict == OutsideScope <==>
              level == "manage" && caller.roles !! {"admin", "hr", "platform_admin"} && !InReach(t, caller, target.id)
  {
    if level != "manage" {
      return WriteForbidden;
    }
    if AdminLevel(caller.roles) {
      return Allowed;
    }
    var visible := VisibleEmployeeIds(t, caller);
    if visible.Some? && target.id !in visible.value {
      return OutsideScope;
    }
    return if UserIsAdminLevel(t, target.user) then WriteForbidden else Allowed;
  }
}
