/** The section matrix: what a level is, what one cell grants, and which section owns a path. */
module Sections {
  import opened Common
  import opened Text

  datatype Level = NoAccess | View | Manage {
    function Rank(): nat {
      match this
      case NoAccess => 0
      case View => 1
      case Manage => 2
    }
  }

  predicate AtMost(a: Level, b: Level) {
    a.Rank() <= b.Rank()
  }

  datatype Role =
    | Admin
    | Hr
    | DivisionManager
    | Recruiter
    | HiringManager
    | Employee
    | PlatformAdmin
    | Custom(code: string)

  /** The roles that have a row in the matrix. */
  const ROLES: seq<Role> := [Admin, Hr, DivisionManager, Recruiter, HiringManager, Employee]

  datatype Section = Section(
    code: string,
    prefixes: seq<string>,
    defaults: map<Role, Level>,
    selfGuarded: bool,
    adminLocked: bool,
    neverHidden: bool,
    ceilings: map<Role, Level>)

  function Ceiling(s: Section, role: Role): Level {
    if role in s.ceilings then s.ceilings[role] else Manage
  }

  /** A section's row of defaults names every role of the matrix. */
  predicate Complete(s: Section) {
    forall r :: r in ROLES ==> r in s.defaults
  }

  type Overrides = map<(string, Role), Level>

  // ----- One cell

  /** What the cell asks for before ceilings and floors: the tenant's override, else the default. */
  function Asked(s: Section, role: Role, overrides: Overrides): Level
    requires Complete(s) && role in ROLES
  {
    if (s.code, role) in overrides then overrides[(s.code, role)] else s.defaults[role]
  }

  function RoleLevel(s: Section, role: Role, overrides: Overrides, hidden: set<string>): Level
    requires Complete(s) && role in ROLES
  {
    var asked := Asked(s, role, overrides);
    var shown := if s.code in hidden && !s.neverHidden then NoAccess else asked;
    var capped := if shown.Rank() > Ceiling(s, role).Rank() then Ceiling(s, role) else shown;
    if s.adminLocked && role == Admin then Manage else capped
  }

  // ----- The strongest of an account's roles

  predicate Known(held: set<Role>) {
    exists r :: r in ROLES && r in held
  }

  /** An account with none of the matrix's roles counts as an employee. */
  predicate Counts(held: set<Role>, role: Role) {
    role in ROLES && if Known(held) then role in held else role == Employee
  }

  function Codes(roles: seq<Role>, held: set<Role>): seq<Role> {
    if roles == [] then []
    else (if roles[0] in held then [roles[0]] else []) + Codes(roles[1..], held)
  }

  function Strongest(s: Section, codes: seq<Role>, overrides: Overrides, hidden: set<string>): Level
    requires Complete(s) && forall r :: r in codes ==> r in ROLES
  {
    if codes == [] then NoAccess
    else
      var first, rest := RoleLevel(s, codes[0], overrides, hidden), Strongest(s, codes[1..], overrides, hidden);
      if rest.Rank() > first.Rank() then rest else first
  }

  lemma {:induction false} CodesHold(roles: seq<Role>, held: set<Role>)
    ensures forall r :: r in Codes(roles, held) <==> r in roles && r in held
  {
    if roles != [] {
      CodesHold(roles[1..], held);
    }
  }

  function SectionLevel(s: Section, held: set<Role>, overrides: Overrides, hidden: set<string>): Level
    requires Complete(s)
  {
    CodesHold(ROLES, held);
    var codes := Codes(ROLES, held);
    Strongest(s, if codes == [] then [Employee] else codes, overrides, hidden)
  }

  lemma {:induction false} StrongestIsMax(s: Section, codes: seq<Role>, overrides: Overrides, hidden: set<string>)
    requires Complete(s) && codes != [] && forall r :: r in codes ==> r in ROLES
    ensures forall r :: r in codes ==>
              AtMost(RoleLevel(s, r, overrides, hidden), Strongest(s, codes, overrides, hidden))
    ensures exists r :: r in codes && Strongest(s, codes, overrides, hidden) == RoleLevel(s, r, overrides, hidden)
  {
    hide RoleLevel;
    if |codes| > 1 {
      StrongestIsMax(s, codes[1..], overrides, hidden);
      var r :| r in codes[1..] && Strongest(s, codes[1..], overrides, hidden) == RoleLevel(s, r, overrides, hidden);
      assert r in codes && codes[0] in codes;
      assert codes == [codes[0]] + codes[1..];
    } else {
      assert codes[1..] == [] && codes[0] in codes;
    }
  }

  /** The effective level is the strongest level of the roles that count: reached by one, exceeded by none. */
  lemma LevelIsStrongest(s: Section, held: set<Role>, overrides: Overrides, hidden: set<string>)
    requires Complete(s)
    ensures forall r :: Counts(held, r) ==>
              AtMost(RoleLevel(s, r, overrides, hidden), SectionLevel(s, held, overrides, hidden))
    ensures exists r :: Counts(held, r)
              && SectionLevel(s, held, overrides, hidden) == RoleLevel(s, r, overrides, hidden)
  {
    CodesHold(ROLES, held);
    var codes := if Codes(ROLES, held) == [] then [Employee] else Codes(ROLES, held);
    assert Codes(ROLES, held) != [] ==> Codes(ROLES, held)[0] in Codes(ROLES, held);
    assert Employee in ROLES by { assert ROLES[5] == Employee; }
    hide Strongest, RoleLevel, Codes;
    assert forall r :: r in codes <==> Counts(held, r);
    StrongestIsMax(s, codes, overrides, hidden);
  }

  // ----- Laws of the matrix

  /** Adding roles to an account that holds a known one never lowers a section. */
  lemma MoreRolesNeverLower(s: Section, held: set<Role>, more: set<Role>, overrides: Overrides, hidden: set<string>)
    requires Complete(s) && held <= more && Known(held)
    ensures AtMost(SectionLevel(s, held, overrides, hidden), SectionLevel(s, more, overrides, hidden))
  {
    LevelIsStrongest(s, held, overrides, hidden);
    LevelIsStrongest(s, more, overrides, hidden);
    hide RoleLevel, SectionLevel;
    var r :| Counts(held, r) && SectionLevel(s, held, overrides, hidden) == RoleLevel(s, r, overrides, hidden);
    assert Counts(more, r);
  }

  /** Nothing is lowered in any section of any matrix. */
  ghost predicate NeverLowers(held: set<Role>, more: set<Role>) {
    forall s, overrides, hidden :: Complete(s) ==>
      AtMost(SectionLevel(s, held, overrides, hidden), SectionLevel(s, more, overrides, hidden))
  }

  /** A section open to employees alone. */
  function EmployeesOnly(): Section {
    Section("x", [], map[Admin := NoAccess, Hr := NoAccess, DivisionManager := NoAccess, Recruiter := NoAccess,
                         HiringManager := NoAccess, Employee := View], false, false, false, map[])
  }

  lemma EmployeesOnlyLevel(held: set<Role>)
    ensures Complete(EmployeesOnly())
    ensures SectionLevel(EmployeesOnly(), held, map[], {}) == if Counts(held, Employee) then View else NoAccess
  {
    var s := EmployeesOnly();
    LevelIsStrongest(s, held, map[], {});
    hide SectionLevel, Counts;
    var r :| Counts(held, r) && SectionLevel(s, held, map[], {}) == RoleLevel(s, r, map[], {});
    assert r in ROLES by { Counted(held, r); }
  }

  lemma Counted(held: set<Role>, r: Role)
    requires Counts(held, r)
    ensures r in ROLES
  {
  }

  /**
   Adding roles never lowers anything exactly when the account held a known role before, still
   holds none, or is an employee afterwards: an account that counts as an employee only by
   default loses that with its first known role.
   */
  lemma WhenAddingRolesIsSafe(held: set<Role>, more: set<Role>)
    requires held <= more
    ensures NeverLowers(held, more) <==> (Known(held) || !Known(more) || Employee in more)
  {
    hide SectionLevel;
    if Known(held) || !Known(more) || Employee in more {
      forall s, overrides, hidden | Complete(s)
        ensures AtMost(SectionLevel(s, held, overrides, hidden), SectionLevel(s, more, overrides, hidden))
      {
        LevelIsStrongest(s, held, overrides, hidden);
        LevelIsStrongest(s, more, overrides, hidden);
        hide RoleLevel;
        var r :| Counts(held, r) && SectionLevel(s, held, overrides, hidden) == RoleLevel(s, r, overrides, hidden);
        assert Counts(more, r);
      }
    } else {
      EmployeesOnlyLevel(held);
      EmployeesOnlyLevel(more);
      assert Employee in ROLES by { assert ROLES[5] == Employee; }
      assert !AtMost(SectionLevel(EmployeesOnly(), held, map[], {}), SectionLevel(EmployeesOnly(), more, map[], {}));
    }
  }

  /** `level`, or the role's ceiling where that is lower. */
  predicate IsCapped(s: Section, role: Role, level: Level, answer: Level) {
    if role in s.ceilings && !AtMost(level, s.ceilings[role]) then answer == s.ceilings[role] else answer == level
  }

  /**
   What one role is given, the admin of a locked section aside: in a hidden section nothing, else the
   level the tenant stored for it and, only where none is stored, the default; either is cut down to
   exactly the role's ceiling where it exceeds it.
   */
  lemma StoredLevelDecides(s: Section, role: Role, overrides: Overrides, hidden: set<string>)
    requires Complete(s) && role in ROLES && !(s.adminLocked && role == Admin)
    ensures var level := SectionLevel(s, {role}, overrides, hidden);
            && (s.code in hidden && !s.neverHidden ==> level == NoAccess)
            && (s.code !in hidden || s.neverHidden ==>
                  && ((s.code, role) in overrides ==> IsCapped(s, role, overrides[(s.code, role)], level))
                  && ((s.code, role) !in overrides ==> IsCapped(s, role, s.defaults[role], level)))
  {
    var held := {role};
    LevelIsStrongest(s, held, overrides, hidden);
    assert role in ROLES && role in held;
    hide SectionLevel, ROLES;
    var r :| Counts(held, r) && SectionLevel(s, held, overrides, hidden) == RoleLevel(s, r, overrides, hidden);
    assert r == role;
  }

  /** Every cell asks for at least as much. */
  ghost predicate Raises(s: Section, before: Overrides, after: Overrides)
    requires Complete(s)
  {
    forall r :: r in ROLES ==> AtMost(Asked(s, r, before), Asked(s, r, after))
  }

  lemma SetOverride(s: Section, role: Role, level: Level, overrides: Overrides)
    requires Complete(s) && role in ROLES && AtMost(Asked(s, role, overrides), level)
    ensures Raises(s, overrides, overrides[(s.code, role) := level])
  {
  }

  /** Raising overrides never lowers a section, and hiding sections never raises one. */
  lemma RaisingAndHiding(s: Section, held: set<Role>, before: Overrides, after: Overrides, hidden: set<string>,
                         more: set<string>)
    requires Complete(s) && Raises(s, before, after) && hidden <= more
    ensures AtMost(SectionLevel(s, held, before, hidden), SectionLevel(s, held, after, hidden))
    ensures AtMost(SectionLevel(s, held, before, more), SectionLevel(s, held, before, hidden))
  {
    Pointwise(s, held, before, hidden, after, hidden);
    Pointwise(s, held, before, more, before, hidden);
  }

  lemma Pointwise(s: Section, held: set<Role>, low: Overrides, lowHidden: set<string>, high: Overrides,
                  highHidden: set<string>)
    requires Complete(s)
    requires forall r :: r in ROLES ==> AtMost(RoleLevel(s, r, low, lowHidden), RoleLevel(s, r, high, highHidden))
    ensures AtMost(SectionLevel(s, held, low, lowHidden), SectionLevel(s, held, high, highHidden))
  {
    LevelIsStrongest(s, held, low, lowHidden);
    LevelIsStrongest(s, held, high, highHidden);
    hide RoleLevel, SectionLevel;
    var r :| Counts(held, r) && SectionLevel(s, held, low, lowHidden) == RoleLevel(s, r, low, lowHidden);
    assert AtMost(RoleLevel(s, r, high, highHidden), SectionLevel(s, held, high, highHidden));
  }

  /** A cell stays under its ceiling unless the admin floor lifts it: that needs a capped admin of a locked section. */
  lemma CellUnderCeiling(s: Section, role: Role, overrides: Overrides, hidden: set<string>)
    requires Complete(s) && role in ROLES
    ensures AtMost(RoleLevel(s, role, overrides, hidden), Ceiling(s, role)) <==>
            !(s.adminLocked && role == Admin && Ceiling(s, Admin) != Manage)
  {
  }

  /** No level exceeds the ceilings of the roles that count: one of them allows it. */
  lemma LevelUnderCeilings(s: Section, held: set<Role>, overrides: Overrides, hidden: set<string>)
    requires Complete(s) && (s.adminLocked ==> Ceiling(s, Admin) == Manage)
    ensures exists r :: Counts(held, r) && AtMost(SectionLevel(s, held, overrides, hidden), Ceiling(s, r))
  {
    LevelIsStrongest(s, held, overrides, hidden);
    hide RoleLevel, SectionLevel, Ceiling;
    var r :| Counts(held, r) && SectionLevel(s, held, overrides, hidden) == RoleLevel(s, r, overrides, hidden);
    CellUnderCeiling(s, r, overrides, hidden);
  }

  /** Whatever the tenant saves, an admin manages the admin-locked sections. */
  lemma AdminIsNeverLockedOut(s: Section, held: set<Role>, overrides: Overrides, hidden: set<string>)
    requires Complete(s) && s.adminLocked && Admin in held
    ensures SectionLevel(s, held, overrides, hidden) == Manage
  {
    LevelIsStrongest(s, held, overrides, hidden);
    assert Admin in ROLES by { assert ROLES[0] == Admin; }
    assert Counts(held, Admin);
    assert RoleLevel(s, Admin, overrides, hidden) == Manage;
  }

  // ----- The gate

  predicate Reads(httpMethod: string) {
    httpMethod == "GET" || httpMethod == "HEAD" || httpMethod == "OPTIONS"
  }

  predicate Denies(s: Section, level: Level, httpMethod: string) {
    level == NoAccess || (!s.selfGuarded && level == View && !Reads(httpMethod))
  }

  /** For every section and method some level is the least the gate lets through: `manage` to write, else `view`. */
  lemma GateIsAThreshold(s: Section, level: Level, httpMethod: string)
    ensures Denies(s, level, httpMethod) <==>
            !AtMost(if s.selfGuarded || httpMethod in ["GET", "HEAD", "OPTIONS"] then View else Manage, level)
  {
  }

  /** A higher level is never denied what a lower one may do, and `manage` is denied nothing. */
  lemma GateIsMonotone(s: Section, low: Level, high: Level, httpMethod: string)
    requires AtMost(low, high) && Denies(s, high, httpMethod)
    ensures Denies(s, low, httpMethod) && high != Manage
  {
  }

  // ----- Which section owns a path

  predicate Under(path: string, prefix: string) {
    path == prefix || prefix + "/" <= path
  }

  function Full(prefix: string): string {
    "/api" + prefix
  }

  predicate Owns(s: Section, prefix: string, path: string) {
    prefix in s.prefixes && Under(path, Full(prefix))
  }

  /** A prefix owns whole segments: those of the path begin with `api` and its own. */
  lemma OwnsSegments(s: Section, prefix: string, path: string)
    ensures Owns(s, prefix, path) <==> prefix in s.prefixes && Split("/api" + prefix, '/') <= Split(path, '/')
  {
    UnderBySegments(path, Full(prefix));
  }

  lemma UnderBySegments(path: string, prefix: string)
    ensures Under(path, prefix) <==> Split(prefix, '/') <= Split(path, '/')
  {
    var a, b := Split(prefix, '/'), Split(path, '/');
    if Under(path, prefix) && path != prefix {
      assert path == prefix + ['/'] + path[|prefix| + 1..];
      SplitAt(prefix, '/', path[|prefix| + 1..]);
    }
    if a <= b {
      JoinSplit(prefix, '/');
      JoinSplit(path, '/');
      assert b == a + b[|a|..];
      if b != a {
        JoinInTurn(a, b[|a|..], '/');
      }
    }
    hide Split, Join;
  }

  ghost predicate NoneLonger(registry: seq<Section>, path: string, n: nat) {
    forall s, q :: s in registry && Owns(s, q, path) ==> |q| <= n
  }

  /** `best` owns `path` by a prefix no owner's prefix is longer than; nothing owns it when there is no `best`. */
  ghost predicate LongestOwner(registry: seq<Section>, path: string, best: Option<Section>) {
    match best
    case None => forall s, p :: s in registry ==> !Owns(s, p, path)
    case Some(b) => b in registry && exists p :: Owns(b, p, path) && NoneLonger(registry, path, |p|)
  }

  method SectionForPath(registry: seq<Section>, path: string) returns (owner: Option<Section>)
    ensures LongestOwner(registry, path, owner)
  {
    var best: Option<(int, Section)> := None;
    for i := 0 to |registry|
      invariant BestSoFar(registry[..i], path, best)
    {
      var s := registry[i];
      assert registry[..i + 1] == registry[..i] + [s];
      hide Owns;
      for j := 0 to |s.prefixes|
        invariant BestWithin(registry[..i], s, s.prefixes[..j], path, best)
      {
        var full := Full(s.prefixes[j]);
        TryPrefix(registry[..i], s, j, path, best);
        if Under(path, full) && (best.None? || |full| > best.value.0) {
          best := Some((|full|, s));
        }
      }
      FinishSection(registry[..i], s, path, best);
    }
    assert registry[..|registry|] == registry;
    owner := if best.Some? then Some(best.value.1) else None;
  }

  /** The loop's memory: a longest owning prefix among the sections seen, if any owns the path. */
  ghost predicate BestSoFar(seen: seq<Section>, path: string, best: Option<(int, Section)>) {
    match best
    case None => forall s, p :: s in seen ==> !Owns(s, p, path)
    case Some(b) => b.1 in seen && exists p :: Owns(b.1, p, path) && |Full(p)| == b.0 && NoneLonger(seen, path, |p|)
  }

  /** The same in the middle of section `s`, after the prefixes `tried`. */
  ghost predicate BestWithin(seen: seq<Section>, s: Section, tried: seq<string>, path: string,
                             best: Option<(int, Section)>)
  {
    match best
    case None => (forall t, p :: t in seen ==> !Owns(t, p, path)) && forall p :: p in tried ==> !Under(path, Full(p))
    case Some(b) =>
      && (b.1 in seen || b.1 == s)
      && exists p :: Owns(b.1, p, path) && |Full(p)| == b.0 && NoneLonger(seen, path, |p|)
                     && (forall q :: q in tried && Under(path, Full(q)) ==> |q| <= |p|)
  }

  lemma TryPrefix(seen: seq<Section>, s: Section, j: nat, path: string, best: Option<(int, Section)>)
    requires j < |s.prefixes| && BestWithin(seen, s, s.prefixes[..j], path, best)
    ensures var full := Full(s.prefixes[j]);
            BestWithin(seen, s, s.prefixes[..j + 1], path,
                       if Under(path, full) && (best.None? || |full| > best.value.0) then Some((|full|, s)) else best)
  {
    var prefix := s.prefixes[j];
    assert s.prefixes[..j + 1] == s.prefixes[..j] + [prefix];
    hide Under;
    if Under(path, Full(prefix)) && (best.None? || |Full(prefix)| > best.value.0) {
      assert Owns(s, prefix, path);
    }
  }

  lemma FinishSection(seen: seq<Section>, s: Section, path: string, best: Option<(int, Section)>)
    requires BestWithin(seen, s, s.prefixes, path, best)
    ensures BestSoFar(seen + [s], path, best)
  {
    hide Under;
  }

  lemma SameLength(path: string, p: string, q: string)
    requires Under(path, Full(p)) && Under(path, Full(q)) && |p| == |q|
    ensures p == q
  {
    assert Full(p) == path[..|Full(p)|] == path[..|Full(q)|] == Full(q);
    assert Full(p)[4..] == p && Full(q)[4..] == q;
  }

  ghost predicate DistinctCodes(registry: seq<Section>) {
    forall i, j :: 0 <= i < j < |registry| ==> registry[i].code != registry[j].code
  }

  ghost predicate NoSharedPrefix(registry: seq<Section>) {
    forall s, t, p :: s in registry && t in registry && p in s.prefixes && p in t.prefixes ==> s == t
  }

  /** Without a prefix claimed twice, the owner does not depend on the order of the registry. */
  lemma OwnerIgnoresOrder(registry: seq<Section>, shuffled: seq<Section>, path: string, a: Option<Section>,
                          b: Option<Section>)
    requires forall s :: s in registry <==> s in shuffled
    requires NoSharedPrefix(registry)
    requires LongestOwner(registry, path, a) && LongestOwner(shuffled, path, b)
    ensures a == b
  {
    hide Under, Full;
    if a.Some? && b.Some? {
      var p :| Owns(a.value, p, path) && NoneLonger(registry, path, |p|);
      var q :| Owns(b.value, q, path) && NoneLonger(shuffled, path, |q|);
      SameLength(path, p, q);
    }
  }

  // ----- The registry's cells

  function Row(admin: Level, hr: Level, manager: Level, recruiter: Level, hiringManager: Level,
               employee: Level): map<Role, Level>
  {
    map[Admin := admin, Hr := hr, DivisionManager := manager, Recruiter := recruiter, HiringManager := hiringManager,
        Employee := employee]
  }

  function Below(roles: set<Role>, level: Level): map<Role, Level> {
    map r | r in roles :: level
  }

  // The prefixes of the sections with the longest lists.
  const COMPANY_PREFIXES: seq<string> := [
    "/company", "/divisions", "/onboarding", "/positions", "/specializations", "/grade-system",
    "/settings/company-profile", "/settings/section-access" ]

  const ASSESSMENT_PREFIXES: seq<string> := [
    "/assessments", "/assessments-grouped", "/assessment-groups", "/answer-scales", "/cpa", "/review" ]

  const COMPETENCE_PREFIXES: seq<string> := [
    "/competences", "/competence-groups", "/competence-tree", "/indicators", "/materials", "/skill-levels",
    "/competence-generation" ]

  const RECRUITMENT_PREFIXES: seq<string> := [
    "/recruitment", "/reports", "/v1/candidates", "/v1/candidate-vacancies", "/v1/question-sets",
    "/v1/questions", "/v1/tenants/me/assessment-scales", "/v1/assessment-scales", "/v1/vacancies",
    "/v1/assessment-rounds", "/v1/assessments", "/v1/manager-assessment-invites" ]

  /** The fifteen sections with their defaults, flags and ceilings. */
  function Registry(): seq<Section> {
    PeopleSections() + WorkSections() + OfficeSections()
  }

  function PeopleSections(): seq<Section> {
    [ Section("employees", ["/employees"], Row(Manage, View, Manage, View, View, View), true, false, true,
              Below({Recruiter, HiringManager, Employee}, View)),
      Section("company", COMPANY_PREFIXES,
              Row(Manage, View, Manage, View, View, View), true, true, true, map[]),
      Section("assessments", ASSESSMENT_PREFIXES,
              Row(Manage, View, Manage, View, View, View), true, false, false, map[]),
      Section("development", ["/pdp", "/analytics/pdp"], Row(Manage, View, Manage, View, View, View), true, false,
              false, map[]),
      Section("exams", ["/exams", "/mass-exams"], Row(Manage, View, Manage, View, View, View), false, false, false,
              map[]) ]
  }

  function WorkSections(): seq<Section> {
    [ Section("competences", COMPETENCE_PREFIXES,
              Row(Manage, Manage, View, NoAccess, NoAccess, NoAccess), true, false, false, map[]),
      Section("coverage", ["/work", "/primitives", "/ai-workforce"], Row(Manage, Manage, View, View, View, View),
              true, false, false, map[]),
      Section("talent-market", ["/talent-market"], Row(Manage, View, Manage, View, View, View), true, false, false,
              map[]),
      Section("recruitment", RECRUITMENT_PREFIXES,
              Row(Manage, Manage, View, Manage, View, NoAccess), true, false, false, map[Employee := NoAccess]),
      Section("analytics", ["/analytics"], Row(Manage, Manage, Manage, NoAccess, NoAccess, NoAccess), false, false,
              false, map[]) ]
  }

  function OfficeSections(): seq<Section> {
    [ Section("dictionaries", ["/dictionaries"], Row(Manage, Manage, NoAccess, NoAccess, NoAccess, NoAccess),
              false, true, true, map[]),
      Section("import", ["/import"], Row(Manage, NoAccess, NoAccess, NoAccess, NoAccess, NoAccess), false, true, true,
              map[]),
      Section("invitations", ["/invitations"], Row(Manage, Manage, Manage, NoAccess, NoAccess, NoAccess), false, true,
              true, Below({Recruiter, HiringManager, Employee}, NoAccess)),
      Section("roles", ["/roles"], Row(Manage, NoAccess, NoAccess, NoAccess, NoAccess, NoAccess), false, true, true,
              Below({Hr, DivisionManager, Recruiter, HiringManager, Employee}, View)),
      Section("ai-settings", ["/admin/ai-settings"], Row(Manage, NoAccess, NoAccess, NoAccess, NoAccess, NoAccess),
              false, true, true, map[]) ]
  }

  /** What the registry guarantees of a section: every default is set and below its ceiling, the admin is nowhere
      capped, and a locked section cannot be hidden. */
  predicate Registered(s: Section) {
    && Complete(s) && Ceiling(s, Admin) == Manage && (s.adminLocked ==> s.neverHidden)
    && forall r :: r in ROLES ==> AtMost(s.defaults[r], Ceiling(s, r))
  }

  lemma RegistryIsSound()
    ensures forall s :: s in Registry() ==> Registered(s)
  {
    hide Registered, PeopleSections, WorkSections, OfficeSections;
    PeopleAreSound();
    WorkIsSound();
    OfficesAreSound();
  }

  lemma PeopleAreSound()
    ensures forall s :: s in PeopleSections() ==> Registered(s)
  {
    RolesAreSix();
    hide ROLES, COMPANY_PREFIXES, ASSESSMENT_PREFIXES, COMPETENCE_PREFIXES, RECRUITMENT_PREFIXES;
    var registry := PeopleSections();
    assert forall k :: 0 <= k < 5 ==> Registered(registry[k]);
    hide Registered;
    assert forall s :: s in registry ==> exists k :: 0 <= k < 5 && registry[k] == s;
  }

  lemma WorkIsSound()
    ensures forall s :: s in WorkSections() ==> Registered(s)
  {
    RolesAreSix();
    hide ROLES, COMPANY_PREFIXES, ASSESSMENT_PREFIXES, COMPETENCE_PREFIXES, RECRUITMENT_PREFIXES;
    var registry := WorkSections();
    assert forall k :: 0 <= k < 5 ==> Registered(registry[k]);
    hide Registered;
    assert forall s :: s in registry ==> exists k :: 0 <= k < 5 && registry[k] == s;
  }

  lemma OfficesAreSound()
    ensures forall s :: s in OfficeSections() ==> Registered(s)
  {
    RolesAreSix();
    hide ROLES, COMPANY_PREFIXES, ASSESSMENT_PREFIXES, COMPETENCE_PREFIXES, RECRUITMENT_PREFIXES;
    var registry := OfficeSections();
    assert forall k :: 0 <= k < 5 ==> Registered(registry[k]);
    hide Registered;
    assert forall s :: s in registry ==> exists k :: 0 <= k < 5 && registry[k] == s;
  }

  lemma RolesAreSix()
    ensures forall r :: r in ROLES <==>
              r in {Admin, Hr, DivisionManager, Recruiter, HiringManager, Employee}
  {
    assert forall r :: r in ROLES <==>
             r == ROLES[0] || r == ROLES[1] || r == ROLES[2] || r == ROLES[3] || r == ROLES[4] || r == ROLES[5];
  }
}
