/** From the rows a tenant stored to the levels its users read, over pending changes and savepoints. */
module SectionRows {
  import opened Common
  import opened Sections
  import opened SectionMemo

  // ----- One role's level, read off the rows

  /** A caller of one tenant with one role of the matrix, the admin of a locked section aside. */
  predicate PlainCaller(s: Section, user: User, role: Role) {
    user.roles == {role} && role in ROLES && !(s.adminLocked && role == Admin)
  }

  /** The stored level counts only while it respects the role's ceiling. */
  predicate Counting(s: Section, rows: Rows, cell: Cell) {
    cell in rows.access && (cell.role in s.ceilings ==> AtMost(rows.access[cell], s.ceilings[cell.role]))
  }

  /**
   What a caller with one role reads for a section: nothing where its own tenant has hidden it and may
   hide it, else the level the tenant stored for the role, unless that exceeds the role's ceiling, else
   the section's default. Nothing another tenant stored plays a part.
   */
  lemma RowsDecide(registry: seq<Section>, tenantOf: Id -> Id, db: Db, user: User, role: Role, i: nat)
    requires (forall s :: s in registry ==> Complete(s)) && DistinctCodes(registry) && i < |registry|
    requires Complete(registry[i]) && PlainCaller(registry[i], user, role)
    ensures var s, rows, tenant := registry[i], ApplyAll(db.visible, db.pending), tenantOf(user.id);
            var cell, answer := Cell(tenant, s.code, role), Answer(registry, tenantOf, db, user);
            s.code in answer &&
            var level := answer[s.code];
            if (tenant, s.code) in rows.hidden && !s.neverHidden && !s.adminLocked then level == NoAccess
            else if Counting(s, rows, cell) then level == rows.access[cell]
            else IsCapped(s, role, s.defaults[role], level)
  {
    var s, rows, tenant := registry[i], ApplyAll(db.visible, db.pending), tenantOf(user.id);
    assert user.roles == {role} && role in ROLES && !(s.adminLocked && role == Admin) && role != PlatformAdmin;
    hide *;
    EvaluatedLevel(registry, tenantOf, db, user, i);
    RowsToLevel(registry, rows, tenant, role, i);
  }

  lemma EvaluatedLevel(registry: seq<Section>, tenantOf: Id -> Id, db: Db, user: User, i: nat)
    requires (forall s :: s in registry ==> Complete(s)) && DistinctCodes(registry) && i < |registry|
    requires Complete(registry[i]) && PlatformAdmin !in user.roles
    ensures var s, rows, tenant := registry[i], ApplyAll(db.visible, db.pending), tenantOf(user.id);
            var answer := Answer(registry, tenantOf, db, user);
            && s.code in answer
            && answer[s.code] == SectionLevel(s, user.roles, OverridesOf(registry, rows, tenant),
                                              HiddenOf(registry, rows, tenant))
  {
    hide EffectiveLevels, SectionLevel, OverridesOf, HiddenOf, ApplyAll, Complete, DistinctCodes;
    var rows, tenant := ApplyAll(db.visible, db.pending), tenantOf(user.id);
    EffectiveLevelOf(registry, user.roles, OverridesOf(registry, rows, tenant), HiddenOf(registry, rows, tenant), i);
  }

  lemma RowsToLevel(registry: seq<Section>, rows: Rows, tenant: Id, role: Role, i: nat)
    requires DistinctCodes(registry) && i < |registry| && Complete(registry[i])
    requires role in ROLES && !(registry[i].adminLocked && role == Admin)
    ensures var s, cell := registry[i], Cell(tenant, registry[i].code, role);
            var level := SectionLevel(s, {role}, OverridesOf(registry, rows, tenant), HiddenOf(registry, rows, tenant));
            if (tenant, s.code) in rows.hidden && !s.neverHidden && !s.adminLocked then level == NoAccess
            else if Counting(s, rows, cell) then level == rows.access[cell]
            else IsCapped(s, role, s.defaults[role], level)
  {
    StoredLevelDecides(registry[i], role, OverridesOf(registry, rows, tenant), HiddenOf(registry, rows, tenant));
    OverridesAt(registry, rows, tenant, role, i);
    HiddenAt(registry, rows, tenant, i);
    hide SectionLevel, OverridesOf, HiddenOf, DistinctCodes, ROLES;
  }

  lemma OnlyOwner(registry: seq<Section>, s: Section, i: nat)
    requires DistinctCodes(registry) && i < |registry| && s in registry && s.code == registry[i].code
    ensures s == registry[i]
  {
    var j :| 0 <= j < |registry| && registry[j] == s;
    assert registry[i].code == registry[j].code;
  }

  lemma OverridesAt(registry: seq<Section>, rows: Rows, tenant: Id, role: Role, i: nat)
    requires DistinctCodes(registry) && i < |registry| && role in ROLES && !(registry[i].adminLocked && role == Admin)
    ensures var s, overrides := registry[i], OverridesOf(registry, rows, tenant);
            var cell := Cell(tenant, s.code, role);
            && ((s.code, role) in overrides <==> Counting(s, rows, cell))
            && ((s.code, role) in overrides ==> overrides[(s.code, role)] == rows.access[cell])
  {
    var s := registry[i];
    var cell := Cell(tenant, s.code, role);
    hide ROLES;
    if cell in rows.access {
      var level := rows.access[cell];
      assert Honoured(registry, s.code, role, level) <==> AtMost(level, Ceiling(s, role)) by {
        forall t | t in registry && t.code == s.code ensures t == s {
          OnlyOwner(registry, t, i);
        }
        hide DistinctCodes;
      }
      hide Honoured, DistinctCodes;
    }
  }

  lemma HiddenAt(registry: seq<Section>, rows: Rows, tenant: Id, i: nat)
    requires DistinctCodes(registry) && i < |registry|
    ensures var s := registry[i];
            s.code in HiddenOf(registry, rows, tenant) <==>
            (tenant, s.code) in rows.hidden && !s.neverHidden && !s.adminLocked
  {
    var s := registry[i];
    forall t | t in registry && t.code == s.code ensures t == s {
      OnlyOwner(registry, t, i);
    }
    hide DistinctCodes;
  }

  /** The rows of `tenant` are the same. */
  ghost predicate SameFor(rows: Rows, others: Rows, tenant: Id) {
    && (forall c :: c in rows.access && c.tenant == tenant ==> c in others.access && others.access[c] == rows.access[c])
    && (forall c :: c in others.access && c.tenant == tenant ==> c in rows.access)
    && (forall section :: (tenant, section) in rows.hidden <==> (tenant, section) in others.hidden)
  }

  /** What a tenant's users read, whatever their roles, depends on that tenant's rows alone. */
  lemma TenantsAreApart(registry: seq<Section>, rows: Rows, others: Rows, tenant: Id, held: set<Role>)
    requires (forall s :: s in registry ==> Complete(s)) && SameFor(rows, others, tenant)
    ensures TenantLevels(registry, rows, tenant, held) == TenantLevels(registry, others, tenant, held)
  {
    hide Honoured, MayHide, EffectiveLevels, Complete;
    assert OverridesOf(registry, rows, tenant) == OverridesOf(registry, others, tenant);
    forall code ensures code in HiddenOf(registry, rows, tenant) <==> code in HiddenOf(registry, others, tenant) {
      assert (tenant, code) in rows.hidden <==> (tenant, code) in others.hidden;
    }
    assert HiddenOf(registry, rows, tenant) == HiddenOf(registry, others, tenant);
  }

  /** A platform admin manages every section, and the answer names no other. */
  lemma PlatformAdminManagesAll(registry: seq<Section>, tenantOf: Id -> Id, db: Db, user: User)
    requires (forall s :: s in registry ==> Complete(s)) && PlatformAdmin in user.roles
    ensures var answer := Answer(registry, tenantOf, db, user);
            && (forall s :: s in registry ==> s.code in answer && answer[s.code] == Manage)
            && forall code :: code in answer ==> exists s :: s in registry && s.code == code
  {
  }

  // ----- Pending changes

  /** The latest change to a cell, and to a section's being hidden. */
  function LatestLevel(changes: seq<Change>, cell: Cell): Option<Option<Level>> {
    if changes == [] then None
    else
      match changes[|changes| - 1]
      case Grant(c, level) => if c == cell then Some(Some(level)) else LatestLevel(changes[..|changes| - 1], cell)
      case Revoke(c) => if c == cell then Some(None) else LatestLevel(changes[..|changes| - 1], cell)
      case _ => LatestLevel(changes[..|changes| - 1], cell)
  }

  function LatestHiding(changes: seq<Change>, tenant: Id, section: string): Option<bool> {
    if changes == [] then None
    else
      match changes[|changes| - 1]
      case Hide(t, s) =>
        if t == tenant && s == section then Some(true) else LatestHiding(changes[..|changes| - 1], tenant, section)
      case Show(t, s) =>
        if t == tenant && s == section then Some(false) else LatestHiding(changes[..|changes| - 1], tenant, section)
      case _ => LatestHiding(changes[..|changes| - 1], tenant, section)
  }

  lemma {:induction false} ApplyLast(rows: Rows, changes: seq<Change>)
    requires changes != []
    ensures ApplyAll(rows, changes) == Apply(ApplyAll(rows, changes[..|changes| - 1]), changes[|changes| - 1])
    decreases |changes|
  {
    if |changes| > 1 {
      var n := |changes| - 1;
      ApplyLast(Apply(rows, changes[0]), changes[1..]);
      assert changes[1..][..n - 1] == changes[..n][1..];
      assert changes[..n][0] == changes[0];
      hide Apply;
    }
  }

  /** Of the changes in a flush the latest to a cell decides it; one that none touches stays as it was. */
  lemma {:induction false} LatestChangeDecides(rows: Rows, changes: seq<Change>, cell: Cell, tenant: Id,
                                               section: string)
    ensures var after := ApplyAll(rows, changes);
            && (match LatestLevel(changes, cell)
                case None => (cell in after.access <==> cell in rows.access)
                             && (cell in rows.access ==> after.access[cell] == rows.access[cell])
                case Some(None) => cell !in after.access
                case Some(Some(level)) => cell in after.access && after.access[cell] == level)
            && ((tenant, section) in after.hidden <==>
                LatestHiding(changes, tenant, section).GetOr((tenant, section) in rows.hidden))
    decreases |changes|
  {
    if changes != [] {
      LatestChangeDecides(rows, changes[..|changes| - 1], cell, tenant, section);
      ApplyLast(rows, changes);
      hide ApplyAll;
    }
  }

  // ----- Savepoints

  /** The state after a run of events. */
  function Ran(db: Db, events: seq<Event>): Db {
    if events == [] then db else Step(Ran(db, events[..|events| - 1]), events[|events| - 1])
  }

  /** No savepoint is set, released or rolled back. */
  predicate Quiet(events: seq<Event>) {
    forall e :: e in events ==> !e.Savepoint? && !e.Rollback? && !e.Commit?
  }

  lemma {:induction false} QuietKeepsSaved(db: Db, events: seq<Event>)
    requires Quiet(events)
    ensures Ran(db, events).saved == db.saved
  {
    if events != [] {
      assert events[|events| - 1] in events;
      QuietKeepsSaved(db, events[..|events| - 1]);
      hide ApplyAll, Apply;
    }
  }

  lemma {:induction false} RanInTurn(db: Db, first: seq<Event>, second: seq<Event>)
    ensures Ran(db, first + second) == Ran(Ran(db, first), second)
  {
    if second == [] {
      assert first + second == first;
    } else {
      var n := |second| - 1;
      RanInTurn(db, first, second[..n]);
      assert (first + second)[..|first + second| - 1] == first + second[..n];
      hide Step;
    }
  }

  lemma RanOne(db: Db, event: Event)
    ensures Ran(db, [event]) == Step(db, event)
  {
    assert [event][..0] == [];
  }

  /** A savepoint, any work, and the end of the savepoint, as one run. */
  function Nested(events: seq<Event>, end: Event): seq<Event> {
    [Event.Savepoint] + (events + [end])
  }

  lemma RanNested(db: Db, events: seq<Event>, end: Event)
    ensures Ran(db, Nested(events, end)) == Step(Ran(Step(db, Event.Savepoint), events), end)
  {
    hide Step;
    RanInTurn(db, [Event.Savepoint], events + [end]);
    RanOne(db, Event.Savepoint);
    RanInTurn(Step(db, Event.Savepoint), events, [end]);
    RanOne(Ran(Step(db, Event.Savepoint), events), end);
  }

  /**
   Whatever is done under a savepoint, rolling it back leaves exactly the state it was set in, with the
   outer ones still to be rolled back to; so no read afterwards sees any of it.
   */
  lemma RollbackUndoes(db: Db, events: seq<Event>)
    requires db.saved != [] && Quiet(events)
    ensures Ran(db, Nested(events, Rollback)) == Flushed(db)
  {
    RanNested(db, events, Rollback);
    QuietKeepsSaved(Step(db, Event.Savepoint), events);
    hide Ran, ApplyAll;
  }

  /** Released, the work under a savepoint stays, as if it had been done without one. */
  lemma ReleaseKeeps(db: Db, events: seq<Event>)
    requires db.saved != [] && Quiet(events)
    ensures var end := Ran(db, Nested(events, Commit));
            end.visible == Flushed(Ran(Step(db, Event.Savepoint), events)).visible
            && end.pending == [] && end.saved == db.saved
  {
    RanNested(db, events, Commit);
    QuietKeepsSaved(Step(db, Event.Savepoint), events);
    hide Ran, ApplyAll;
  }

  /** A transaction rolled back as a whole leaves the state it began in; committed, its end is where the next begins. */
  lemma TransactionEnds(db: Db, events: seq<Event>, start: Rows)
    requires db.saved == [start] && Quiet(events)
    ensures Ran(db, events + [Rollback]) == Db(start, [], [start])
    ensures var done := Flushed(Ran(db, events)).visible; Ran(db, events + [Commit]) == Db(done, [], [done])
  {
    RanInTurn(db, events, [Rollback]);
    RanInTurn(db, events, [Commit]);
    RanOne(Ran(db, events), Rollback);
    RanOne(Ran(db, events), Commit);
    QuietKeepsSaved(db, events);
    hide Ran, ApplyAll;
  }
}
