/**
 The delete triggers that protect tenants and users outside the demo, over whole runs of
 statements. The triggers are enabled always, so they fire in replica mode too; foreign keys are
 checked and cascaded only outside it.
 */
module DeleteGuards {
  import opened Common

  /** `is_demo` of each tenant and `tenant_id` of each user, both nullable. */
  datatype State = State(tenants: map<Id, Option<bool>>, users: map<Id, Option<Id>>)

  datatype Statement =
    | InsertTenant(id: Id, demo: Option<bool>)
    | SetDemo(id: Id, demo: Option<bool>)
    | InsertUser(id: Id, tenant: Option<Id>, replica: bool)
    | MoveUser(id: Id, tenant: Option<Id>, replica: bool)
    | DeleteTenants(ids: set<Id>, replica: bool)
    | DeleteUsers(ids: set<Id>)

  // ----- The triggers

  /** `IF OLD.is_demo IS NOT TRUE THEN RAISE`. */
  predicate TenantMayGo(demo: Option<bool>) {
    demo == Some(true)
  }

  /** A user goes with a demo tenant, or with a tenant that is no longer there; never without one. */
  predicate UserMayGo(tenants: map<Id, Option<bool>>, tenant: Option<Id>) {
    match tenant
    case None => false
    case Some(t) => t in tenants ==> tenants[t] == Some(true)
  }

  // ----- What a statement does

  /** The tenant named by a new reference exists; nulls and replica mode are not checked. */
  predicate ReferenceHolds(db: State, tenant: Option<Id>, replica: bool) {
    replica || tenant.None? || tenant.value in db.tenants
  }

  function UsersOf(db: State, tenants: set<Id>): set<Id> {
    set u | u in db.users && db.users[u].Some? && db.users[u].value in tenants
  }

  /** No row is refused by its trigger or by a constraint. */
  predicate Accepts(db: State, s: Statement) {
    match s
    case InsertTenant(id, _) => id !in db.tenants
    case SetDemo(_, _) => true
    case InsertUser(id, tenant, replica) => id !in db.users && ReferenceHolds(db, tenant, replica)
    case MoveUser(id, tenant, replica) => id in db.users ==> ReferenceHolds(db, tenant, replica)
    case DeleteTenants(ids, _) => forall t :: t in ids && t in db.tenants ==> TenantMayGo(db.tenants[t])
    case DeleteUsers(ids) => forall u :: u in ids && u in db.users ==> UserMayGo(db.tenants, db.users[u])
  }

  function Apply(db: State, s: Statement): State {
    if !Accepts(db, s) then db
    else
      match s
      case InsertTenant(id, demo) => db.(tenants := db.tenants[id := demo])
      case SetDemo(id, demo) => if id in db.tenants then db.(tenants := db.tenants[id := demo]) else db
      case InsertUser(id, tenant, _) => db.(users := db.users[id := tenant])
      case MoveUser(id, tenant, _) => if id in db.users then db.(users := db.users[id := tenant]) else db
      case DeleteTenants(ids, replica) =>
        State(db.tenants - ids, if replica then db.users else db.users - UsersOf(db, ids * db.tenants.Keys))
      case DeleteUsers(ids) => db.(users := db.users - ids)
  }

  class Database {
    var tenants: map<Id, Option<bool>>
    var users: map<Id, Option<Id>>

    function Now(): State
      reads this
    {
      State(tenants, users)
    }

    constructor ()
      ensures Now() == State(map[], map[])
    {
      tenants, users := map[], map[];
    }

    /** Deletes rows one by one, each past the trigger, up to the first refusal. */
    method DeleteUserRows(ids: set<Id>) returns (ok: bool)
      modifies this`users
      ensures ok <==> forall u :: u in ids && u in old(users) ==> UserMayGo(tenants, old(users)[u])
      ensures ok ==> users == old(users) - ids
    {
      var before := users;
      var todo := ids * users.Keys;
      while todo != {}
        invariant todo <= ids * before.Keys
        invariant users == before - (ids * before.Keys - todo)
        invariant forall u :: u in ids && u in before && u !in todo ==> UserMayGo(tenants, before[u])
      {
        var u := Next(todo);
        if !UserMayGo(tenants, before[u]) {
          return false;
        }
        users := users - {u};
        todo := todo - {u};
        SameEntries(users, before - (ids * before.Keys - todo));
      }
      SameEntries(users, before - ids);
      return true;
    }

    /** The tenant rows, then, outside replica mode, the cascade to their users through the users' trigger. */
    method DeleteTenantRows(ids: set<Id>, replica: bool) returns (ok: bool)
      modifies this
      ensures ok <==> Accepts(old(Now()), DeleteTenants(ids, replica))
      ensures ok ==> Now() == Apply(old(Now()), DeleteTenants(ids, replica))
    {
      var before := tenants;
      var gone := ids * tenants.Keys;
      var todo := gone;
      while todo != {}
        invariant todo <= gone && users == old(users)
        invariant tenants == before - (gone - todo)
        invariant forall t :: t in gone && t !in todo ==> TenantMayGo(before[t])
      {
        var t := Next(todo);
        if !TenantMayGo(before[t]) {
          return false;
        }
        tenants := tenants - {t};
        todo := todo - {t};
        SameEntries(tenants, before - (gone - todo));
      }
      SameEntries(tenants, before - ids);
      ok := true;
      if !replica {
        ok := DeleteUserRows(UsersOf(State(before, users), gone));
      }
    }

    /** One statement; a refusal rolls back what it did. */
    method Execute(s: Statement) returns (ok: bool)
      modifies this
      ensures ok <==> Accepts(old(Now()), s)
      ensures Now() == Apply(old(Now()), s)
    {
      var before := Now();
      ok := Accepts(before, s);
      match s {
        case InsertTenant(id, demo) =>
          if ok {
            tenants := tenants[id := demo];
          }
        case SetDemo(id, demo) =>
          if id in tenants {
            tenants := tenants[id := demo];
          }
        case InsertUser(id, tenant, _) =>
          if ok {
            users := users[id := tenant];
          }
        case MoveUser(id, tenant, _) =>
          if ok && id in users {
            users := users[id := tenant];
          }
        case DeleteTenants(ids, replica) =>
          ok := DeleteTenantRows(ids, replica);
        case DeleteUsers(ids) =>
          ok := DeleteUserRows(ids);
      }
      if !ok {
        tenants, users := before.tenants, before.users;
      }
    }
  }

  // ----- Runs

  function After(run: seq<Statement>): State {
    if run == [] then State(map[], map[]) else Apply(After(run[..|run| - 1]), run[|run| - 1])
  }

  method ExecuteAll(run: seq<Statement>) returns (db: Database)
    ensures fresh(db) && db.Now() == After(run)
  {
    db := new Database();
    for n := 0 to |run|
      invariant fresh(db) && db.Now() == After(run[..n])
    {
      assert run[..n + 1][..n] == run[..n];
      var _ := db.Execute(run[n]);
    }
    assert run[..|run|] == run;
  }

  ghost predicate RemovesTenant(run: seq<Statement>, n: nat, t: Id)
    requires n < |run|
  {
    t in After(run[..n]).tenants && t !in After(run[..n + 1]).tenants
  }

  ghost predicate RemovesUser(run: seq<Statement>, n: nat, u: Id)
    requires n < |run|
  {
    u in After(run[..n]).users && u !in After(run[..n + 1]).users
  }

  lemma Step(run: seq<Statement>, n: nat)
    requires n < |run|
    ensures After(run[..n + 1]) == Apply(After(run[..n]), run[n])
  {
    assert run[..n + 1][..n] == run[..n];
  }

  /** Every tenant that a run removes was a demo tenant at that moment. */
  lemma RemovedTenantsWereDemo(run: seq<Statement>, n: nat, t: Id)
    requires n < |run| && RemovesTenant(run, n, t)
    ensures After(run[..n]).tenants[t] == Some(true)
  {
    Step(run, n);
    hide After;
  }

  /** A statement that would remove a tenant that is not a demo tenant, or a user who is not of one, changes nothing. */
  lemma OthersStopTheStatement(db: State, s: Statement, id: Id)
    ensures s.DeleteTenants? && id in s.ids && id in db.tenants && db.tenants[id] != Some(true) ==> Apply(db, s) == db
    ensures s.DeleteUsers? && id in s.ids && id in db.users && !UserMayGo(db.tenants, db.users[id]) ==>
            Apply(db, s) == db
  {
  }

  /**
   The guards stop nothing else: rows are inserted, marked and moved where the references hold or are
   not checked, demo tenants go, and users of demo tenants go.
   */
  lemma OrdinaryStatementsPass(db: State, s: Statement)
    ensures var after := Apply(db, s);
            match s
            case InsertTenant(id, demo) => id !in db.tenants ==> after == State(db.tenants[id := demo], db.users)
            case SetDemo(id, demo) => id in db.tenants ==> after == State(db.tenants[id := demo], db.users)
            case InsertUser(id, tenant, replica) =>
              id !in db.users && (tenant.None? || tenant.value in db.tenants || replica) ==>
                after == State(db.tenants, db.users[id := tenant])
            case MoveUser(id, tenant, replica) =>
              id in db.users && (tenant.None? || tenant.value in db.tenants || replica) ==>
                after == State(db.tenants, db.users[id := tenant])
            case DeleteTenants(ids, _) =>
              (forall t :: t in ids && t in db.tenants ==> db.tenants[t] == Some(true)) ==> ids !! after.tenants.Keys
            case DeleteUsers(ids) =>
              (forall u :: u in ids && u in db.users ==> IsOfDemo(db, u)) ==> ids !! after.users.Keys
  {
  }

  predicate IsOfDemo(db: State, u: Id)
    requires u in db.users
  {
    db.users[u].Some? && db.users[u].value in db.tenants && db.tenants[db.users[u].value] == Some(true)
  }

  /** `t` was removed, as a demo tenant, within the first `n` statements. */
  ghost predicate WasRemoved(run: seq<Statement>, n: nat, t: Id)
    requires n <= |run|
  {
    exists m :: 0 <= m < n && RemovesTenant(run, m, t) && After(run[..m]).tenants[t] == Some(true)
  }

  /** The user's tenant is a demo tenant, or was one when it was removed. */
  ghost predicate BelongsToDemo(run: seq<Statement>, n: nat, u: Id)
    requires n <= |run|
    requires u in After(run[..n]).users
  {
    var tenant := After(run[..n]).users[u];
    tenant.Some? && if tenant.value in After(run[..n]).tenants then After(run[..n]).tenants[tenant.value] == Some(true)
                    else WasRemoved(run, n, tenant.value)
  }

  /** The reference a statement creates without the check names a tenant that is or was there. */
  ghost predicate KnownParent(run: seq<Statement>, n: nat)
    requires n < |run|
  {
    var s := run[n];
    (s.InsertUser? || s.MoveUser?) && s.replica && s.tenant.Some? ==>
      s.tenant.value in After(run[..n]).tenants || WasRemoved(run, n, s.tenant.value)
  }

  /** The user's tenant is not there and never was removed. */
  ghost predicate Dangling(run: seq<Statement>, n: nat, u: Id)
    requires n <= |run| && u in After(run[..n]).users
  {
    var tenant := After(run[..n]).users[u];
    tenant.Some? && tenant.value !in After(run[..n]).tenants && !WasRemoved(run, n, tenant.value)
  }

  lemma {:induction false} NobodyDangles(run: seq<Statement>, n: nat, u: Id)
    requires n <= |run| && (forall m :: 0 <= m < n ==> KnownParent(run, m))
    requires u in After(run[..n]).users
    ensures !Dangling(run, n, u)
  {
    if n > 0 {
      var before, db := After(run[..n - 1]), After(run[..n]);
      Step(run, n - 1);
      if u in before.users && db.users[u] == before.users[u] {
        NobodyDangles(run, n - 1, u);
        if db.users[u].Some? {
          StillKnown(run, n, db.users[u].value);
        }
      } else {
        assert KnownParent(run, n - 1);
        if db.users[u].Some? && ReferenceHolds(before, db.users[u], true) {
          StillKnown(run, n, db.users[u].value);
        }
      }
    }
  }

  lemma StillKnown(run: seq<Statement>, n: nat, t: Id)
    requires 0 < n <= |run|
    ensures t in After(run[..n - 1]).tenants || WasRemoved(run, n - 1, t) ==>
            t in After(run[..n]).tenants || WasRemoved(run, n, t)
  {
    if t in After(run[..n - 1]).tenants && t !in After(run[..n]).tenants {
      assert RemovesTenant(run, n - 1, t);
      RemovedTenantsWereDemo(run, n - 1, t);
    }
  }

  /**
   Every user that a run removes, by itself or in a cascade, belonged to a demo tenant, provided
   that no statement in replica mode had referred to a tenant that never was.
   */
  lemma RemovedUsersBelongedToDemo(run: seq<Statement>, n: nat, u: Id)
    requires n < |run| && RemovesUser(run, n, u)
    requires forall m :: 0 <= m < n ==> KnownParent(run, m)
    ensures BelongsToDemo(run, n, u)
  {
    NobodyDangles(run, n, u);
    Step(run, n);
    hide After, WasRemoved;
  }

  /**
   In every run a statement that removes a user, whatever it is and whatever came before, removes one
   who belonged to a demo tenant if and only if that user did not dangle.
   */
  lemma RemovalIsRightUnlessDangling(run: seq<Statement>, n: nat, u: Id)
    requires n < |run| && RemovesUser(run, n, u)
    ensures BelongsToDemo(run, n, u) <==> !Dangling(run, n, u)
  {
    Step(run, n);
    hide After, WasRemoved;
  }

  /** The proviso is exact: deleting a user by itself gets past the guard wrongly just when the user dangles. */
  lemma GuardFailsOnDangling(run: seq<Statement>, u: Id)
    requires u in After(run).users
    ensures var n := |run|;
            var more := run + [DeleteUsers({u})];
            more[..n] == run &&
            (RemovesUser(more, n, u) && !BelongsToDemo(more, n, u) <==> Dangling(more, n, u))
  {
    var n := |run|;
    var more := run + [DeleteUsers({u})];
    assert more[..n] == run;
    Step(more, n);
  }

  /** A user inserted in replica mode for a tenant that never was is deleted, demo or not. */
  lemma DanglingUserIsDeleted(u: Id, t: Id)
    ensures var run := [InsertUser(u, Some(t), true), DeleteUsers({u})];
            RemovesUser(run, 1, u) && !BelongsToDemo(run, 1, u)
  {
    var run := [InsertUser(u, Some(t), true), DeleteUsers({u})];
    assert run[..0] == [];
    Step(run, 0);
    Step(run, 1);
    assert After(run[..1]) == State(map[], map[u := Some(t)]);
    assert !RemovesTenant(run, 0, t);
  }

  /** Without replica mode every user's tenant exists after every statement. */
  lemma {:induction false} ReferencesHold(run: seq<Statement>, u: Id)
    requires forall s :: s in run ==> !((s.InsertUser? || s.MoveUser? || s.DeleteTenants?) && s.replica)
    requires u in After(run).users && After(run).users[u].Some?
    ensures After(run).users[u].value in After(run).tenants
  {
    if run != [] {
      var n := |run| - 1;
      var before, s := After(run[..n]), run[n];
      assert s in run;
      if u in before.users && After(run).users[u] == before.users[u] {
        ReferencesHold(run[..n], u);
      }
    }
  }
}
