/**
 The per-session memo of the section matrix. A database session holds rows its transaction sees,
 changes not flushed yet and the snapshots a rollback returns to; the memo lives beside them and
 is dropped by flushes, bulk writes and rollbacks.
 */
module SectionMemo {
  import opened Common
  import opened Sections

  // ----- The stored deviations of all tenants

  datatype Cell = Cell(tenant: Id, section: string, role: Role)
  datatype Rows = Rows(access: map<Cell, Level>, hidden: set<(Id, string)>)

  datatype Change = Grant(cell: Cell, level: Level) | Revoke(revoked: Cell) | Hide(tenant: Id, section: string)
                  | Show(tenant: Id, section: string) | Unrelated

  function Apply(rows: Rows, change: Change): Rows {
    match change
    case Grant(cell, level) => rows.(access := rows.access[cell := level])
    case Revoke(cell) => rows.(access := rows.access - {cell})
    case Hide(tenant, section) => rows.(hidden := rows.hidden + {(tenant, section)})
    case Show(tenant, section) => rows.(hidden := rows.hidden - {(tenant, section)})
    case Unrelated => rows
  }

  function ApplyAll(rows: Rows, changes: seq<Change>): Rows
    decreases |changes|
  {
    if changes == [] then rows else ApplyAll(Apply(rows, changes[0]), changes[1..])
  }

  /** A stored row the registry no longer allows is read as if it were not there. */
  predicate Honoured(registry: seq<Section>, section: string, role: Role, level: Level) {
    role in ROLES && exists s :: s in registry && s.code == section && !(role == Admin && s.adminLocked)
                                   && AtMost(level, Ceiling(s, role))
  }

  function OverridesOf(registry: seq<Section>, rows: Rows, tenant: Id): Overrides {
    map c | c in rows.access && c.tenant == tenant && Honoured(registry, c.section, c.role, rows.access[c]) ::
      (c.section, c.role) := rows.access[c]
  }

  predicate MayHide(registry: seq<Section>, section: string) {
    exists s :: s in registry && s.code == section && !s.neverHidden && !s.adminLocked
  }

  function HiddenOf(registry: seq<Section>, rows: Rows, tenant: Id): set<string> {
    set h | h in rows.hidden && h.0 == tenant && MayHide(registry, h.1) :: h.1
  }

  type Levels = map<string, Level>

  /** The level of every section; a later section of the same code would win. */
  function EffectiveLevels(registry: seq<Section>, held: set<Role>, overrides: Overrides, hidden: set<string>): Levels
    requires forall s :: s in registry ==> Complete(s)
  {
    if registry == [] then map[]
    else
      var s := registry[|registry| - 1];
      var others := EffectiveLevels(registry[..|registry| - 1], held, overrides, hidden);
      others[s.code := SectionLevel(s, held, overrides, hidden)]
  }

  /** With distinct codes the map gives every section its own level, so the laws of the matrix hold of its entries. */
  lemma {:induction false} EffectiveLevelOf(registry: seq<Section>, held: set<Role>, overrides: Overrides,
                                            hidden: set<string>, i: nat)
    requires (forall s :: s in registry ==> Complete(s)) && DistinctCodes(registry) && i < |registry|
    ensures registry[i].code in EffectiveLevels(registry, held, overrides, hidden)
    ensures EffectiveLevels(registry, held, overrides, hidden)[registry[i].code] ==
            SectionLevel(registry[i], held, overrides, hidden)
  {
    hide SectionLevel;
    var n := |registry| - 1;
    if i < n {
      EffectiveLevelOf(registry[..n], held, overrides, hidden, i);
      assert registry[..n][i] == registry[i];
    }
  }

  function AllManage(registry: seq<Section>): Levels {
    map s | s in registry :: s.code := Manage
  }

  /** Who asks. A user belongs to one tenant. */
  datatype User = User(id: Id, roles: set<Role>)

  function TenantLevels(registry: seq<Section>, rows: Rows, tenant: Id, held: set<Role>): Levels
    requires forall s :: s in registry ==> Complete(s)
  {
    EffectiveLevels(registry, held, OverridesOf(registry, rows, tenant), HiddenOf(registry, rows, tenant))
  }

  // ----- The session without a memo

  /** `pending` waits for a flush; `saved` are the states that rollbacks return to, the transaction's start last. */
  datatype Db = Db(visible: Rows, pending: seq<Change>, saved: seq<Rows>)

  function Flushed(db: Db): Db {
    db.(visible := ApplyAll(db.visible, db.pending), pending := [])
  }

  datatype Event = Add(change: Change) | Flush | BulkWrite(written: Change) | RawRead | Savepoint | Rollback | Commit
                 | Read(user: User) | Narrow(answer: nat, section: string, level: Level)

  /** Reading levels flushes first, unless the caller is a platform admin, who needs no read. */
  function Evaluated(db: Db, user: User): Db {
    if PlatformAdmin in user.roles then db else Flushed(db)
  }

  function Answer(registry: seq<Section>, tenantOf: Id -> Id, db: Db, user: User): Levels
    requires forall s :: s in registry ==> Complete(s)
  {
    if PlatformAdmin in user.roles then AllManage(registry)
    else TenantLevels(registry, Flushed(db).visible, tenantOf(user.id), user.roles)
  }

  function Step(db: Db, event: Event): Db {
    match event
    case Add(change) => db.(pending := db.pending + [change])
    case Flush => Flushed(db)
    case BulkWrite(change) => var flushed := Flushed(db); flushed.(visible := Apply(flushed.visible, change))
    case RawRead => Flushed(db)
    case Savepoint => var flushed := Flushed(db); flushed.(saved := [flushed.visible] + flushed.saved)
    case Rollback => RolledBack(db)
    case Commit => Committed(db)
    case Read(user) => Evaluated(db, user)
    case Narrow(_, _, _) => db
  }

  /** The innermost savepoint is left behind; the outermost state starts the next transaction. */
  function RolledBack(db: Db): Db {
    if db.saved == [] then db.(pending := [])
    else Db(db.saved[0], [], if |db.saved| == 1 then db.saved else db.saved[1..])
  }

  function Committed(db: Db): Db {
    var flushed := Flushed(db);
    if |flushed.saved| > 1 then flushed.(saved := flushed.saved[1..]) else flushed.(saved := [flushed.visible])
  }

  /** The answers of every read of a run, each evaluated afresh. */
  function Answers(registry: seq<Section>, tenantOf: Id -> Id, db: Db, events: seq<Event>): seq<Levels>
    requires forall s :: s in registry ==> Complete(s)
    decreases |events|
  {
    if events == [] then []
    else (if events[0].Read? then [Answer(registry, tenantOf, db, events[0].user)] else [])
         + Answers(registry, tenantOf, Step(db, events[0]), events[1..])
  }

  // ----- The session with its memo

  /** A dictionary on the heap: the memo's entries and the callers' copies are such objects. */
  class LevelMap {
    var levels: Levels

    constructor (levels: Levels)
      ensures this.levels == levels
    {
      this.levels := levels;
    }
  }

  class Session {
    const registry: seq<Section>
    const tenantOf: Id -> Id
    var db: Db
    var memo: map<User, LevelMap>

    ghost predicate Valid()
      reads this, memo.Values
    {
      && (forall s :: s in registry ==> Complete(s))
      && forall user :: user in memo ==>
           memo[user].levels == TenantLevels(registry, db.visible, tenantOf(user.id), user.roles)
    }

    constructor (registry: seq<Section>, tenantOf: Id -> Id, db: Db)
      requires forall s :: s in registry ==> Complete(s)
      ensures Valid() && this.registry == registry && this.tenantOf == tenantOf && this.db == db && memo == map[]
    {
      this.registry, this.tenantOf, this.db, memo := registry, tenantOf, db, map[];
    }

    /** `after_flush` and `after_soft_rollback`. */
    method Forget()
      modifies this`memo
      ensures memo == map[]
    {
      memo := map[];
    }

    method AddPending(change: Change)
      requires Valid()
      modifies this`db
      ensures memo == old(memo) || memo == map[]
      ensures Valid() && db == Step(old(db), Add(change))
    {
      db := db.(pending := db.pending + [change]);
    }

    /** Nothing pending means nothing flushed, and no event. */
    method FlushPending()
      requires Valid()
      modifies this
      ensures Valid() && db == Flushed(old(db))
      ensures old(db.pending) != [] ==> memo == map[]
      ensures old(db.pending) == [] ==> memo == old(memo)
    {
      if db.pending != [] {
        db := Flushed(db);
        Forget();
      }
    }

    /** `do_orm_execute`: anything that is not a SELECT drops the memo before it runs. */
    method ExecuteWrite(change: Change)
      requires Valid()
      modifies this
      ensures memo == old(memo) || memo == map[]
      ensures Valid() && db == Step(old(db), BulkWrite(change))
    {
      Forget();
      FlushPending();
      db := db.(visible := Apply(db.visible, change));
    }

    method ExecuteRawRead()
      requires Valid()
      modifies this
      ensures memo == old(memo) || memo == map[]
      ensures Valid() && db == Step(old(db), RawRead)
    {
      Forget();
      FlushPending();
    }

    method BeginNested()
      requires Valid()
      modifies this
      ensures memo == old(memo) || memo == map[]
      ensures Valid() && db == Step(old(db), Savepoint)
    {
      FlushPending();
      db := db.(saved := [db.visible] + db.saved);
    }

    method RollBack()
      requires Valid()
      modifies this
      ensures memo == old(memo) || memo == map[]
      ensures Valid() && db == Step(old(db), Rollback)
    {
      db := RolledBack(db);
      Forget();
    }

    method CommitAll()
      requires Valid()
      modifies this
      ensures memo == old(memo) || memo == map[]
      ensures Valid() && db == Step(old(db), Commit)
    {
      FlushPending();
      db := Committed(db);
    }

    /**
     The levels of a caller, from the memo when it holds them. The answer is what an evaluation
     without a memo gives, and it is the caller's own copy.
     */
    method MatrixLevels(user: User) returns (answer: LevelMap)
      requires Valid()
      modifies this
      ensures Valid() && fresh(answer) && answer !in memo.Values
      ensures forall o :: o in memo.Values ==> o in old(memo.Values) || fresh(o)
      ensures answer.levels == Answer(registry, tenantOf, old(db), user)
      ensures db == Evaluated(old(db), user)
    {
      if PlatformAdmin in user.roles {
        answer := new LevelMap(AllManage(registry));
        return;
      }
      if db.pending != [] {
        Forget();
      }
      var levels: LevelMap;
      if user in memo {
        levels := memo[user];
        assert db == Flushed(db);
      } else {
        FlushPending();
        levels := new LevelMap(TenantLevels(registry, db.visible, tenantOf(user.id), user.roles));
        memo := memo[user := levels];
      }
      answer := new LevelMap(levels.levels);
    }

    /** The menu's view: the caller's copy narrowed for coverage, the memo untouched. */
    method LevelsFor(user: User, coverage: Level) returns (answer: LevelMap)
      requires Valid()
      modifies this
      ensures Valid() && fresh(answer) && answer !in memo.Values
      ensures answer.levels == if PlatformAdmin in user.roles then AllManage(registry)
                               else Answer(registry, tenantOf, old(db), user)["coverage" := coverage]
      ensures db == Evaluated(old(db), user)
    {
      answer := MatrixLevels(user);
      if PlatformAdmin !in user.roles {
        answer.levels := answer.levels["coverage" := coverage];
      }
    }
  }

  /** A caller changes a map it was handed; the memo's own maps stay as they are. */
  method NarrowCopy(session: Session, copy: LevelMap, section: string, level: Level)
    requires session.Valid() && copy !in session.memo.Values
    modifies copy
    ensures session.Valid()
  {
    hide TenantLevels, Complete;
    copy.levels := copy.levels[section := level];
  }

  /** One event on a session; a read adds the caller's copy to `handed`, which callers may change at any time. */
  method Perform(session: Session, event: Event, handed: seq<LevelMap>)
    returns (handed': seq<LevelMap>, answer: Option<Levels>)
    requires session.Valid()
    requires forall h :: h in handed ==> h !in session.memo.Values
    modifies session, handed
    ensures session.Valid()
    ensures forall h :: h in handed' ==> h !in session.memo.Values
    ensures session.db == Step(old(session.db), event)
    ensures answer ==
            if event.Read? then Some(Answer(session.registry, session.tenantOf, old(session.db), event.user)) else None
    ensures forall i :: 0 <= i < |handed'| ==> handed'[i] in handed || fresh(handed'[i])
  {
    hide Answer;
    handed', answer := handed, None;
    if event.Read? {
      var copy := session.MatrixLevels(event.user);
      handed', answer := handed + [copy], Some(copy.levels);
    } else if event.Narrow? {
      if event.answer < |handed| {
        NarrowCopy(session, handed[event.answer], event.section, event.level);
      }
    } else {
      PerformWrite(session, event);
    }
  }

  /** Events that hand nothing out. They only ever drop memo entries. */
  method PerformWrite(session: Session, event: Event)
    requires session.Valid() && !event.Read? && !event.Narrow?
    modifies session
    ensures session.Valid()
    ensures session.db == Step(old(session.db), event)
    ensures session.memo == old(session.memo) || session.memo == map[]
  {
    match event
    case Add(change) => session.AddPending(change);
    case Flush => session.FlushPending();
    case BulkWrite(change) => session.ExecuteWrite(change);
    case RawRead => session.ExecuteRawRead();
    case Savepoint => session.BeginNested();
    case Rollback => session.RollBack();
    case Commit => session.CommitAll();
  }

  /**
   Over any run of pending changes, flushes, bulk writes, raw reads, savepoints, rollbacks,
   commits, reads, and callers changing the maps they were handed, every read answers what an
   evaluation without a memo would.
   */
  method MemoIsTransparent(session: Session, events: seq<Event>) returns (answers: seq<Levels>)
    requires session.Valid()
    modifies session
    ensures answers == Answers(session.registry, session.tenantOf, old(session.db), events)
  {
    answers := [];
    var handed: seq<LevelMap> := [];
    for n := 0 to |events|
      invariant session.Valid()
      invariant forall h :: h in handed ==> h !in session.memo.Values
      invariant forall i :: 0 <= i < |handed| ==> fresh(handed[i])
      invariant answers + Answers(session.registry, session.tenantOf, session.db, events[n..]) ==
                Answers(session.registry, session.tenantOf, old(session.db), events)
    {
      hide Answer, Step;
      var answer: Option<Levels>;
      assert events[n..][0] == events[n] && events[n..][1..] == events[n + 1..];
      ghost var before := session.db;
      handed, answer := Perform(session, events[n], handed);
      assert Answers(session.registry, session.tenantOf, before, events[n..]) ==
        (if answer.Some? then [answer.value] else []) +
        Answers(session.registry, session.tenantOf, session.db, events[n + 1..]);
      if answer.Some? {
        answers := answers + [answer.value];
      }
    }
  }
}
