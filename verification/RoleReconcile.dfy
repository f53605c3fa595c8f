/** The one-shot script that gives division heads the manager role. */
module RoleReconcile {
  import opened Common

  datatype Role = Role(code: string, isSystem: bool)
  datatype Division = Division(tenant: Id, manager: Option<Id>, deputy: Option<Id>)
  /** A row of the association table; the pair is its primary key. */
  datatype Grant = Grant(user: Id, role: Id)
  /** A user who leads a division of `tenant`. */
  datatype Head = Head(tenant: Id, user: Id)

  type Roles = map<Id, Role>

  // ----- Role codes

  function Codes(roles: Roles, grants: set<Grant>, user: Id): set<string> {
    set g | g in grants && g.user == user && g.role in roles :: roles[g.role].code
  }

  /** Holders of these roles are never changed. */
  predicate Independent(codes: set<string>) {
    "admin" in codes || "hr" in codes || "platform_admin" in codes
  }

  predicate Ranked(codes: set<string>) {
    "manager" in codes || Independent(codes)
  }

  predicate IsManagerRole(roles: Roles, id: Id) {
    id in roles && roles[id] == Role("manager", true)
  }

  ghost predicate UniqueCodes(roles: Roles) {
    forall i, j :: i in roles && j in roles && roles[i].code == roles[j].code ==> i == j
  }

  // ----- Who leads

  predicate LedBy(d: Division, employee: Id) {
    d.manager == Some(employee) || d.deputy == Some(employee)
  }

  /** `employee` is the manager or deputy of some division of `tenant`; the record may be of another tenant, or gone. */
  ghost predicate Leads(divisions: map<Id, Division>, tenant: Id, employee: Id) {
    exists d :: d in divisions && divisions[d].tenant == tenant && LedBy(divisions[d], employee)
  }

  ghost predicate IsHead(divisions: map<Id, Division>, employees: map<Id, Id>, h: Head) {
    exists e :: e in employees && employees[e] == h.user && Leads(divisions, h.tenant, e)
  }

  ghost function Heads(tenants: set<Id>, divisions: map<Id, Division>, employees: map<Id, Id>): set<Head> {
    set t, u | t in tenants && u in employees.Values && IsHead(divisions, employees, Head(t, u)) :: Head(t, u)
  }

  // ----- What a run must do

  function Unranked(roles: Roles, grants: set<Grant>, heads: set<Head>): set<Head> {
    set h | h in heads && !Ranked(Codes(roles, grants, h.user))
  }

  function Untouchable(roles: Roles, grants: set<Grant>, heads: set<Head>): set<Head> {
    set h | h in heads && Independent(Codes(roles, grants, h.user))
  }

  function Users(heads: set<Head>): set<Id> {
    set h | h in heads :: h.user
  }

  function Granted(users: set<Id>, role: Id): set<Grant> {
    set u | u in users :: Grant(u, role)
  }

  /** The association table after a run. */
  function Reconciled(roles: Roles, grants: set<Grant>, manager: Id, heads: set<Head>): set<Grant> {
    grants + Granted(Users(Unranked(roles, grants, heads)), manager)
  }

  datatype Outcome =
    | Done(upgraded: int, skipped: int, already: int)
    | NoManagerRole
    | DuplicateGrant

  /** Where a run that has dealt with `visited` stands; a dry run counts a head per tenant, the others per user. */
  ghost predicate Standing(roles: Roles, base: set<Grant>, manager: Id, dryRun: bool, visited: set<Head>,
                           grants: set<Grant>, o: Outcome)
  {
    && o.Done?
    && grants == (if dryRun then base else Reconciled(roles, base, manager, visited))
    && o.upgraded == (if dryRun then |Unranked(roles, base, visited)| else |Users(Unranked(roles, base, visited))|)
    && o.skipped == |Untouchable(roles, base, visited)|
    && o.upgraded + o.skipped + o.already == |visited|
  }

  class Database {
    const roles: Roles
    const tenants: set<Id>
    const divisions: map<Id, Division>
    const employees: map<Id, Id>
    var grants: set<Grant>

    constructor (roles: Roles, tenants: set<Id>, divisions: map<Id, Division>, employees: map<Id, Id>,
                 grants: set<Grant>)
      ensures this.roles == roles && this.tenants == tenants && this.divisions == divisions
      ensures this.employees == employees && this.grants == grants
    {
      this.roles, this.tenants := roles, tenants;
      this.divisions, this.employees, this.grants := divisions, employees, grants;
    }

    /** `INSERT`: a second row with the same key is an error. */
    method Insert(g: Grant) returns (ok: bool)
      modifies this`grants
      ensures ok <==> g !in old(grants)
      ensures grants == old(grants) + {g}
    {
      ok := g !in grants;
      grants := grants + {g};
    }

    /** `scalar_one()` on the system manager role: codes are unique, so there is one or none. */
    method ManagerRole() returns (found: Option<Id>)
      ensures found.Some? ==> IsManagerRole(roles, found.value)
      ensures found.Some? ==> roles[found.value].code == "manager" && roles[found.value].isSystem
      ensures found.None? ==> forall id :: id in roles && roles[id].isSystem ==> roles[id].code != "manager"
    {
      var todo := roles.Keys;
      while todo != {}
        invariant todo <= roles.Keys
        invariant forall id :: id in roles && id !in todo ==> !IsManagerRole(roles, id)
      {
        var id := Next(todo);
        if IsManagerRole(roles, id) {
          return Some(id);
        }
        todo := todo - {id};
      }
      return None;
    }

    method Leaders(tenant: Id) returns (ids: set<Id>)
      ensures forall e :: e in ids <==> Leads(divisions, tenant, e)
    {
      ids := {};
      var todo := divisions.Keys;
      while todo != {}
        invariant todo <= divisions.Keys
        invariant forall e :: e in ids <==>
          exists d :: d in divisions && d !in todo && divisions[d].tenant == tenant && LedBy(divisions[d], e)
      {
        var d := Next(todo);
        todo := todo - {d};
        if divisions[d].tenant == tenant {
          if divisions[d].manager.Some? {
            ids := ids + {divisions[d].manager.value};
          }
          if divisions[d].deputy.Some? {
            ids := ids + {divisions[d].deputy.value};
          }
        }
      }
    }

    /** `db.get(Employee, id)` looks in no particular tenant; missing records are passed over. */
    method UsersOf(ids: set<Id>) returns (users: set<Id>)
      ensures forall u :: u in users <==> exists e :: e in ids && e in employees && employees[e] == u
    {
      users := {};
      var todo := ids;
      while todo != {}
        invariant todo <= ids
        invariant forall u :: u in users <==> exists e :: e in ids && e !in todo && e in employees && employees[e] == u
      {
        var e := Next(todo);
        todo := todo - {e};
        if e in employees {
          users := users + {employees[e]};
        }
      }
    }

    method HeadsOf(tenant: Id) returns (users: set<Id>)
      ensures forall u :: u in users <==> IsHead(divisions, employees, Head(tenant, u))
    {
      hide Leads;
      var ids := Leaders(tenant);
      if ids == {} {
        assert forall u :: !IsHead(divisions, employees, Head(tenant, u)) by {
          assert forall e :: e !in ids;
        }
        return {};
      }
      users := UsersOf(ids);
    }

    /** One user of one tenant. */
    method Visit(h: Head, manager: Id, dryRun: bool, before: Outcome, ghost base: set<Grant>, ghost visited: set<Head>)
      returns (o: Outcome)
      requires UniqueCodes(roles) && IsManagerRole(roles, manager) && h !in visited
      requires Standing(roles, base, manager, dryRun, visited, grants, before)
      modifies this`grants
      ensures Standing(roles, base, manager, dryRun, visited + {h}, grants, o)
    {
      hide Standing, Codes, Independent, Ranked, Reconciled;
      var codes := Codes(roles, grants, h.user);
      NowHolds(roles, base, manager, dryRun, visited, grants, before, h.user);
      if Independent(codes) {
        o := CountSkipped(before);
        VisitUntouchable(roles, base, manager, dryRun, visited, grants, before, h, o);
      } else if Ranked(codes) {
        o := CountAlready(before);
        VisitRanked(roles, base, manager, dryRun, visited, grants, before, h, o);
      } else {
        VisitUnranked(roles, base, manager, dryRun, visited, grants, before, h);
        if !dryRun {
          var ok := Insert(Grant(h.user, manager));
          if !ok {
            return DuplicateGrant;
          }
        }
        o := CountUpgraded(before);
      }
    }

    method ReconcileTenant(tenant: Id, manager: Id, dryRun: bool, before: Outcome, ghost base: set<Grant>,
                           ghost visited: set<Head>)
      returns (o: Outcome, ghost now: set<Head>)
      requires UniqueCodes(roles) && IsManagerRole(roles, manager)
      requires Standing(roles, base, manager, dryRun, visited, grants, before)
      requires forall h :: h in visited ==> h.tenant != tenant
      modifies this`grants
      ensures Standing(roles, base, manager, dryRun, now, grants, o)
      ensures forall h :: h in now <==> h in visited || (h.tenant == tenant && IsHead(divisions, employees, h))
    {
      hide Standing, IsHead;
      o, now := before, visited;
      var users := HeadsOf(tenant);
      var todo := users;
      while todo != {}
        invariant todo <= users
        invariant Standing(roles, base, manager, dryRun, now, grants, o)
        invariant forall h :: h in now <==> h in visited || (h.tenant == tenant && h.user in users - todo)
      {
        var u := Next(todo);
        o := Visit(Head(tenant, u), manager, dryRun, o, base, now);
        todo := todo - {u};
        now := now + {Head(tenant, u)};
      }
    }

    /**
     Whole run. Without a system manager role it fails before writing; otherwise no insert ever
     meets an existing row, and the table and the three counters are those of the specification.
     */
    method Reconcile(dryRun: bool) returns (o: Outcome)
      requires UniqueCodes(roles)
      modifies this`grants
      ensures o == NoManagerRole <==> forall id :: !IsManagerRole(roles, id)
      ensures o == NoManagerRole ==> grants == old(grants)
      ensures o != DuplicateGrant
      ensures forall m :: IsManagerRole(roles, m) ==>
                Standing(roles, old(grants), m, dryRun, Heads(tenants, divisions, employees), grants, o)
    {
      hide Standing, IsHead;
      var manager := ManagerRole();
      if manager.None? {
        return NoManagerRole;
      }
      var m := manager.value;
      o := Done(0, 0, 0);
      ghost var base, visited: set<Head> := grants, {};
      StandingAtStart(roles, base, m, dryRun);
      var todo := tenants;
      while todo != {}
        invariant todo <= tenants
        invariant Standing(roles, base, m, dryRun, visited, grants, o)
        invariant forall h :: h in visited <==> h.tenant in tenants - todo && IsHead(divisions, employees, h)
      {
        var t := Next(todo);
        ghost var now;
        o, now := ReconcileTenant(t, m, dryRun, o, base, visited);
        visited := now;
        todo := todo - {t};
      }
      AllHeads(tenants, divisions, employees, visited);
      assert Standing(roles, base, m, dryRun, visited, grants, o);
      assert o.Done? by {
        IsDone(roles, base, m, dryRun, visited, grants, o);
      }
    }
  }

  function CountSkipped(o: Outcome): Outcome
    requires o.Done?
  {
    o.(skipped := o.skipped + 1)
  }

  function CountAlready(o: Outcome): Outcome
    requires o.Done?
  {
    o.(already := o.already + 1)
  }

  function CountUpgraded(o: Outcome): Outcome
    requires o.Done?
  {
    o.(upgraded := o.upgraded + 1)
  }

  lemma IsDone(roles: Roles, base: set<Grant>, manager: Id, dryRun: bool, visited: set<Head>, grants: set<Grant>,
               o: Outcome)
    requires Standing(roles, base, manager, dryRun, visited, grants, o)
    ensures o.Done?
  {
  }

  lemma StandingAtStart(roles: Roles, base: set<Grant>, manager: Id, dryRun: bool)
    ensures Standing(roles, base, manager, dryRun, {}, base, Done(0, 0, 0))
  {
  }

  lemma AllHeads(tenants: set<Id>, divisions: map<Id, Division>, employees: map<Id, Id>, visited: set<Head>)
    requires forall h :: h in visited <==> h.tenant in tenants && IsHead(divisions, employees, h)
    ensures visited == Heads(tenants, divisions, employees)
  {
    hide Leads;
    forall h | h in visited ensures h in Heads(tenants, divisions, employees) {
      var e :| e in employees && employees[e] == h.user && Leads(divisions, h.tenant, e);
      assert h == Head(h.tenant, h.user);
    }
  }

  // ----- One visit

  lemma CodesAfter(roles: Roles, base: set<Grant>, manager: Id, users: set<Id>, user: Id)
    requires IsManagerRole(roles, manager)
    ensures Codes(roles, base + Granted(users, manager), user) ==
            Codes(roles, base, user) + (if user in users then {"manager"} else {})
  {
    var after := base + Granted(users, manager);
    forall c | c in Codes(roles, base, user) ensures c in Codes(roles, after, user) {
      var g :| g in base && g.user == user && g.role in roles && roles[g.role].code == c;
      assert g in after;
    }
    if user in users {
      assert Grant(user, manager) in after;
    }
  }

  lemma NowHolds(roles: Roles, base: set<Grant>, manager: Id, dryRun: bool, visited: set<Head>, grants: set<Grant>,
                 o: Outcome, user: Id)
    requires IsManagerRole(roles, manager) && Standing(roles, base, manager, dryRun, visited, grants, o)
    ensures o.Done?
    ensures Codes(roles, grants, user) ==
            Codes(roles, base, user) +
            (if !dryRun && user in Users(Unranked(roles, base, visited)) then {"manager"} else {})
  {
    hide Codes, Ranked, Independent;
    CodesAfter(roles, base, manager, Users(Unranked(roles, base, visited)), user);
  }

  lemma OneMoreHead(roles: Roles, base: set<Grant>, visited: set<Head>, h: Head)
    requires h !in visited
    ensures var ranked, independent := Ranked(Codes(roles, base, h.user)), Independent(Codes(roles, base, h.user));
            && Unranked(roles, base, visited + {h}) == Unranked(roles, base, visited) + (if ranked then {} else {h})
            && Untouchable(roles, base, visited + {h}) ==
               Untouchable(roles, base, visited) + (if independent then {h} else {})
            && Users(Unranked(roles, base, visited) + {h}) == Users(Unranked(roles, base, visited)) + {h.user}
    ensures h !in Unranked(roles, base, visited) && h !in Untouchable(roles, base, visited)
  {
    hide Codes, Ranked, Independent;
    UsersOfMore(Unranked(roles, base, visited), h);
    hide Users;
  }

  lemma VisitUntouchable(roles: Roles, base: set<Grant>, manager: Id, dryRun: bool, visited: set<Head>,
                         grants: set<Grant>, o: Outcome, h: Head, next: Outcome)
    requires h !in visited && o.Done? && next == CountSkipped(o)
    requires Standing(roles, base, manager, dryRun, visited, grants, o)
    requires Codes(roles, grants, h.user) == Codes(roles, base, h.user) +
             (if !dryRun && h.user in Users(Unranked(roles, base, visited)) then {"manager"} else {})
    requires Independent(Codes(roles, grants, h.user))
    ensures Standing(roles, base, manager, dryRun, visited + {h}, grants, next)
  {
    assert Independent(Codes(roles, base, h.user)) && Ranked(Codes(roles, base, h.user)) by {
      hide Codes, Standing;
    }
    hide *;
    StepUntouchable(roles, base, manager, dryRun, visited, grants, o, h);
  }

  lemma StepUntouchable(roles: Roles, base: set<Grant>, manager: Id, dryRun: bool, visited: set<Head>,
                        grants: set<Grant>, o: Outcome, h: Head)
    requires h !in visited && o.Done? && Standing(roles, base, manager, dryRun, visited, grants, o)
    requires Independent(Codes(roles, base, h.user)) && Ranked(Codes(roles, base, h.user))
    ensures Standing(roles, base, manager, dryRun, visited + {h}, grants, CountSkipped(o))
  {
    hide Codes, Ranked, Independent, Unranked, Untouchable, Users, Granted;
    OneMoreHead(roles, base, visited, h);
    assert Reconciled(roles, base, manager, visited + {h}) == Reconciled(roles, base, manager, visited);
    hide Reconciled;
  }

  lemma VisitRanked(roles: Roles, base: set<Grant>, manager: Id, dryRun: bool, visited: set<Head>, grants: set<Grant>,
                    o: Outcome, h: Head, next: Outcome)
    requires h !in visited && o.Done? && next == CountAlready(o)
    requires Standing(roles, base, manager, dryRun, visited, grants, o)
    requires Codes(roles, grants, h.user) == Codes(roles, base, h.user) +
             (if !dryRun && h.user in Users(Unranked(roles, base, visited)) then {"manager"} else {})
    requires !Independent(Codes(roles, grants, h.user)) && Ranked(Codes(roles, grants, h.user))
    ensures Standing(roles, base, manager, dryRun, visited + {h}, grants, next)
  {
    assert !Independent(Codes(roles, base, h.user)) by {
      hide Codes, Standing;
    }
    assert Ranked(Codes(roles, base, h.user)) || (!dryRun && h.user in Users(Unranked(roles, base, visited))) by {
      hide Codes, Standing;
    }
    hide *;
    StepRanked(roles, base, manager, dryRun, visited, grants, o, h);
  }

  lemma StepRanked(roles: Roles, base: set<Grant>, manager: Id, dryRun: bool, visited: set<Head>, grants: set<Grant>,
                   o: Outcome, h: Head)
    requires h !in visited && o.Done? && Standing(roles, base, manager, dryRun, visited, grants, o)
    requires !Independent(Codes(roles, base, h.user))
    requires Ranked(Codes(roles, base, h.user)) || (!dryRun && h.user in Users(Unranked(roles, base, visited)))
    ensures Standing(roles, base, manager, dryRun, visited + {h}, grants, CountAlready(o))
  {
    hide Codes, Ranked, Independent, Unranked, Untouchable, Users, Granted;
    OneMoreHead(roles, base, visited, h);
    var upgraded := Users(Unranked(roles, base, visited));
    assert h.user in upgraded ==> upgraded + {h.user} == upgraded;
    assert Reconciled(roles, base, manager, visited + {h}) == Reconciled(roles, base, manager, visited) || dryRun;
    hide Reconciled;
  }

  lemma VisitUnranked(roles: Roles, base: set<Grant>, manager: Id, dryRun: bool, visited: set<Head>, grants: set<Grant>,
                      o: Outcome, h: Head)
    requires h !in visited && o.Done? && IsManagerRole(roles, manager)
    requires Standing(roles, base, manager, dryRun, visited, grants, o)
    requires Codes(roles, grants, h.user) == Codes(roles, base, h.user) +
             (if !dryRun && h.user in Users(Unranked(roles, base, visited)) then {"manager"} else {})
    requires !Ranked(Codes(roles, grants, h.user))
    ensures Grant(h.user, manager) !in grants
    ensures Standing(roles, base, manager, dryRun, visited + {h},
                     if dryRun then grants else grants + {Grant(h.user, manager)}, CountUpgraded(o))
  {
    NoRowYet(roles, grants, manager, h.user);
    WasUnranked(Codes(roles, base, h.user), Codes(roles, grants, h.user));
    assert dryRun || h.user !in Users(Unranked(roles, base, visited)) by {
      hide Codes, Standing, Users, Unranked;
    }
    hide *;
    StepUnranked(roles, base, manager, dryRun, visited, grants, o, h);
  }

  lemma StepUnranked(roles: Roles, base: set<Grant>, manager: Id, dryRun: bool, visited: set<Head>, grants: set<Grant>,
                     o: Outcome, h: Head)
    requires h !in visited && o.Done? && Standing(roles, base, manager, dryRun, visited, grants, o)
    requires !Ranked(Codes(roles, base, h.user)) && !Independent(Codes(roles, base, h.user))
    requires dryRun || h.user !in Users(Unranked(roles, base, visited))
    ensures Standing(roles, base, manager, dryRun, visited + {h},
                     if dryRun then grants else grants + {Grant(h.user, manager)}, CountUpgraded(o))
  {
    hide Codes, Ranked, Independent, Unranked, Untouchable, Users, Granted;
    OneMoreHead(roles, base, visited, h);
    var upgraded := Users(Unranked(roles, base, visited));
    GrantedOne(upgraded, h.user, manager);
    assert Reconciled(roles, base, manager, visited + {h}) ==
           Reconciled(roles, base, manager, visited) + {Grant(h.user, manager)} by {
      assert base + Granted(upgraded + {h.user}, manager) ==
             base + Granted(upgraded, manager) + {Grant(h.user, manager)};
    }
    hide Reconciled;
  }

  lemma WasUnranked(codes: set<string>, now: set<string>)
    requires codes <= now && !Ranked(now)
    ensures !Ranked(codes) && !Independent(codes)
  {
  }

  lemma NoRowYet(roles: Roles, grants: set<Grant>, manager: Id, user: Id)
    requires IsManagerRole(roles, manager) && !Ranked(Codes(roles, grants, user))
    ensures Grant(user, manager) !in grants
  {
    forall g | g in grants && g.role in roles ensures roles[g.role].code in Codes(roles, grants, g.user) {
    }
  }

  lemma GrantedOne(users: set<Id>, user: Id, role: Id)
    ensures Granted(users + {user}, role) == Granted(users, role) + {Grant(user, role)}
  {
  }

  // ----- What the specified table guarantees

  /** Afterwards every head is a manager or higher. */
  lemma EveryHeadIsRanked(roles: Roles, grants: set<Grant>, manager: Id, heads: set<Head>, h: Head)
    requires IsManagerRole(roles, manager) && h in heads
    ensures Ranked(Codes(roles, Reconciled(roles, grants, manager, heads), h.user))
  {
    var upgraded := Users(Unranked(roles, grants, heads));
    CodesAfter(roles, grants, manager, upgraded, h.user);
    assert !Ranked(Codes(roles, grants, h.user)) ==> h in Unranked(roles, grants, heads);
    hide Codes;
  }

  /**
   Who gets a row: the heads who hold none of the four roles, and nobody else. Those who hold one of
   the three above the manager are the ones counted as skipped.
   */
  lemma WhoIsUpgraded(roles: Roles, grants: set<Grant>, manager: Id, heads: set<Head>, user: Id)
    requires IsManagerRole(roles, manager)
    ensures var codes := Codes(roles, grants, user);
            Grant(user, manager) in Reconciled(roles, grants, manager, heads) && Grant(user, manager) !in grants <==>
            (exists h :: h in heads && h.user == user) && codes !! {"manager", "admin", "hr", "platform_admin"}
    ensures Untouchable(roles, grants, heads) ==
            set h | h in heads && !(Codes(roles, grants, h.user) !! {"admin", "hr", "platform_admin"})
  {
    var codes := Codes(roles, grants, user);
    assert Ranked(codes) <==> !(codes !! {"manager", "admin", "hr", "platform_admin"});
    if !Ranked(codes) {
      NoRowYet(roles, grants, manager, user);
    }
    hide Codes, Ranked;
    assert user in Users(Unranked(roles, grants, heads)) <==>
           !Ranked(codes) && exists h :: h in heads && h.user == user;
  }

  /**
   The only change to any user is an added manager role, for heads who were unranked; no row is
   lost and each upgrade adds one.
   */
  lemma OnlyManagerIsAdded(roles: Roles, grants: set<Grant>, manager: Id, heads: set<Head>)
    requires IsManagerRole(roles, manager)
    ensures var after := Reconciled(roles, grants, manager, heads);
            && (forall user :: Codes(roles, after, user) == Codes(roles, grants, user) ||
                  (&& !Ranked(Codes(roles, grants, user)) && (exists h :: h in heads && h.user == user)
                   && Codes(roles, after, user) == Codes(roles, grants, user) + {"manager"}))
            && grants <= after && (forall g :: g in after && g !in grants ==> g.role == manager)
            && |after| == |grants| + |Users(Unranked(roles, grants, heads))|
  {
    var upgraded := Users(Unranked(roles, grants, heads));
    var after := Reconciled(roles, grants, manager, heads);
    forall user
      ensures Codes(roles, after, user) == Codes(roles, grants, user) + (if user in upgraded then {"manager"} else {})
    {
      CodesAfter(roles, grants, manager, upgraded, user);
    }
    forall user | user in upgraded ensures Grant(user, manager) !in grants {
      NoRowYet(roles, grants, manager, user);
    }
    hide Codes, Ranked;
    GrantedSize(upgraded, manager);
    assert |grants + Granted(upgraded, manager)| == |grants| + |Granted(upgraded, manager)| by {
      assert grants !! Granted(upgraded, manager);
    }
  }

  lemma {:induction false} GrantedSize(users: set<Id>, role: Id)
    ensures |Granted(users, role)| == |users|
  {
    if users == {} {
      assert Granted(users, role) == {};
    } else {
      var u :| u in users;
      GrantedSize(users - {u}, role);
      GrantedOne(users - {u}, u, role);
      assert users - {u} + {u} == users;
    }
  }

  /** A second run finds nobody to upgrade and changes nothing. */
  lemma SecondRunChangesNothing(roles: Roles, grants: set<Grant>, manager: Id, heads: set<Head>)
    requires IsManagerRole(roles, manager)
    ensures var after := Reconciled(roles, grants, manager, heads);
            Unranked(roles, after, heads) == {} && Reconciled(roles, after, manager, heads) == after
  {
    hide Codes, Ranked;
    var after := Reconciled(roles, grants, manager, heads);
    forall h | h in heads ensures h !in Unranked(roles, after, heads) {
      EveryHeadIsRanked(roles, grants, manager, heads, h);
    }
  }

  predicate LeadsTwice(heads: set<Head>) {
    exists a, b :: a in heads && b in heads && a != b && a.user == b.user
  }

  lemma {:induction false} UsersCount(heads: set<Head>)
    ensures |Users(heads)| <= |heads|
    ensures |Users(heads)| == |heads| <==> !LeadsTwice(heads)
  {
    if heads == {} {
      assert Users(heads) == {};
    } else {
      var h :| h in heads;
      var rest := heads - {h};
      UsersCount(rest);
      assert Users(heads) == Users(rest) + {h.user} by {
        assert heads == rest + {h};
        UsersOfMore(rest, h);
      }
      if h.user in Users(rest) {
        var k :| k in rest && k.user == h.user;
        assert LeadsTwice(heads);
      } else {
        assert LeadsTwice(heads) ==> LeadsTwice(rest) by {
          if LeadsTwice(heads) {
            var a, b :| a in heads && b in heads && a != b && a.user == b.user;
            assert a in rest && b in rest;
          }
        }
      }
    }
  }

  lemma UsersOfMore(rest: set<Head>, h: Head)
    ensures Users(rest + {h}) == Users(rest) + {h.user}
  {
    forall x | x in Users(rest) + {h.user} ensures x in Users(rest + {h}) {
      if x in Users(rest) {
        var k :| k in rest && k.user == x;
        assert k in rest + {h};
      } else {
        assert h in rest + {h};
      }
    }
  }

  /**
   From one table, a dry run (`d`) and a real run (`o`) skip the same heads; the dry run announces
   at least as many upgrades as the real run makes, and exactly as many if and only if no unranked
   user leads divisions in two tenants: it announces such a user once for each.
   */
  lemma DryRunAnnounces(roles: Roles, base: set<Grant>, manager: Id, heads: set<Head>, dryGrants: set<Grant>,
                        grants: set<Grant>, d: Outcome, o: Outcome)
    requires Standing(roles, base, manager, true, heads, dryGrants, d)
    requires Standing(roles, base, manager, false, heads, grants, o)
    ensures dryGrants == base && d.skipped == o.skipped
    ensures o.upgraded <= d.upgraded
    ensures d.upgraded == o.upgraded <==> !LeadsTwice(Unranked(roles, base, heads))
  {
    UsersCount(Unranked(roles, base, heads));
    hide Reconciled, Unranked, Untouchable, Users, LeadsTwice;
  }

  lemma LeadsInTwoTenants(divisions: map<Id, Division>, employees: map<Id, Id>)
    requires employees == map[Id(7) := Id(9)]
    requires divisions == map[Id(5) := Division(Id(1), Some(Id(7)), None), Id(6) := Division(Id(2), Some(Id(7)), None)]
    ensures Heads({Id(1), Id(2)}, divisions, employees) == {Head(Id(1), Id(9)), Head(Id(2), Id(9))}
  {
    assert Id(5) in divisions && Id(6) in divisions && Id(7) in employees;
    assert Leads(divisions, Id(1), Id(7)) && Leads(divisions, Id(2), Id(7));
    assert IsHead(divisions, employees, Head(Id(1), Id(9))) && IsHead(divisions, employees, Head(Id(2), Id(9)));
    hide Leads, IsHead;
    assert forall u :: u in employees.Values ==> u == Id(9);
    assert Id(9) in employees.Values;
  }

  lemma UnrankedTwice(roles: Roles, heads: set<Head>)
    requires heads == {Head(Id(1), Id(9)), Head(Id(2), Id(9))}
    ensures Unranked(roles, {}, heads) == heads && |heads| == 2
    ensures Users(heads) == {Id(9)}
  {
    assert Codes(roles, {}, Id(9)) == {};
    assert Head(Id(1), Id(9)) in heads;
  }

  /** One employee without a role who manages a division in each of two tenants: announced twice, upgraded once. */
  lemma LeaderOfTwoTenants(roles: Roles, divisions: map<Id, Division>, employees: map<Id, Id>, dryGrants: set<Grant>,
                           grants: set<Grant>, d: Outcome, o: Outcome)
    requires roles == map[Id(0) := Role("manager", true)] && employees == map[Id(7) := Id(9)]
    requires divisions == map[Id(5) := Division(Id(1), Some(Id(7)), None), Id(6) := Division(Id(2), Some(Id(7)), None)]
    requires Standing(roles, {}, Id(0), true, Heads({Id(1), Id(2)}, divisions, employees), dryGrants, d)
    requires Standing(roles, {}, Id(0), false, Heads({Id(1), Id(2)}, divisions, employees), grants, o)
    ensures d.upgraded == 2 && o.upgraded == 1 && grants == {Grant(Id(9), Id(0))}
  {
    hide Heads, Unranked, Untouchable, Users, Granted;
    LeadsInTwoTenants(divisions, employees);
    UnrankedTwice(roles, Heads({Id(1), Id(2)}, divisions, employees));
    GrantedOne({}, Id(9), Id(0));
    assert Granted({}, Id(0)) == {} by {
      NothingGranted(Id(0));
    }
    assert {} + {Id(9)} == {Id(9)};
  }

  lemma NothingGranted(role: Id)
    ensures Granted({}, role) == {}
  {
  }
}
