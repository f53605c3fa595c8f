/** What the fifteen sections of the registry come to, role by role. */
module SectionRegistry {
  import opened Common
  import opened Sections

  // ----- Which section a route belongs to

  /** Whose prefix a text is, read off its length and then the text; empty when it is nobody's. */
  function SectionOf(prefix: string): string {
    match |prefix|
    case 4 =>
      if prefix == "/cpa" then "assessments" else
      if prefix == "/pdp" then "development" else ""
    case 5 =>
      if prefix == "/work" then "coverage" else ""
    case 6 =>
      if prefix == "/exams" then "exams" else
      if prefix == "/roles" then "roles" else ""
    case 7 =>
      if prefix == "/review" then "assessments" else
      if prefix == "/import" then "import" else ""
    case 8 =>
      if prefix == "/company" then "company" else
      if prefix == "/reports" then "recruitment" else ""
    case 10 =>
      if prefix == "/employees" then "employees" else
      if prefix == "/divisions" then "company" else
      if prefix == "/positions" then "company" else
      if prefix == "/materials" then "competences" else
      if prefix == "/analytics" then "analytics" else ""
    case 11 =>
      if prefix == "/onboarding" then "company" else
      if prefix == "/mass-exams" then "exams" else
      if prefix == "/indicators" then "competences" else
      if prefix == "/primitives" then "coverage" else ""
    case 12 =>
      if prefix == "/assessments" then "assessments" else
      if prefix == "/competences" then "competences" else
      if prefix == "/recruitment" then "recruitment" else
      if prefix == "/invitations" then "invitations" else ""
    case 13 =>
      if prefix == "/grade-system" then "company" else
      if prefix == "/skill-levels" then "competences" else
      if prefix == "/ai-workforce" then "coverage" else
      if prefix == "/v1/questions" then "recruitment" else
      if prefix == "/v1/vacancies" then "recruitment" else
      if prefix == "/dictionaries" then "dictionaries" else ""
    case 14 =>
      if prefix == "/answer-scales" then "assessments" else
      if prefix == "/analytics/pdp" then "development" else
      if prefix == "/talent-market" then "talent-market" else
      if prefix == "/v1/candidates" then "recruitment" else ""
    case 15 =>
      if prefix == "/v1/assessments" then "recruitment" else ""
    case 16 =>
      if prefix == "/specializations" then "company" else
      if prefix == "/competence-tree" then "competences" else ""
    case 17 =>
      if prefix == "/v1/question-sets" then "recruitment" else ""
    case 18 =>
      if prefix == "/assessment-groups" then "assessments" else
      if prefix == "/competence-groups" then "competences" else
      if prefix == "/admin/ai-settings" then "ai-settings" else ""
    case 20 =>
      if prefix == "/assessments-grouped" then "assessments" else ""
    case 21 =>
      if prefix == "/v1/assessment-scales" then "recruitment" else
      if prefix == "/v1/assessment-rounds" then "recruitment" else ""
    case 22 =>
      if prefix == "/competence-generation" then "competences" else ""
    case 23 =>
      if prefix == "/v1/candidate-vacancies" then "recruitment" else ""
    case 24 =>
      if prefix == "/settings/section-access" then "company" else ""
    case 25 =>
      if prefix == "/settings/company-profile" then "company" else ""
    case 30 =>
      if prefix == "/v1/manager-assessment-invites" then "recruitment" else ""
    case 32 =>
      if prefix == "/v1/tenants/me/assessment-scales" then "recruitment" else ""
    case _ => ""
  }

  ghost predicate Claims(prefixes: seq<string>, code: string) {
    forall p :: p in prefixes <==> SectionOf(p) == code
  }

  lemma CompanyClaims()
    ensures Claims(COMPANY_PREFIXES, "company")
  {
    forall i | 0 <= i < |COMPANY_PREFIXES| ensures SectionOf(COMPANY_PREFIXES[i]) == "company" {
    }
    forall p | SectionOf(p) == "company" ensures p in COMPANY_PREFIXES {
    }
  }

  lemma CompetencesClaim()
    ensures Claims(COMPETENCE_PREFIXES, "competences")
  {
    forall i | 0 <= i < |COMPETENCE_PREFIXES| ensures SectionOf(COMPETENCE_PREFIXES[i]) == "competences" {
    }
    forall p | SectionOf(p) == "competences" ensures p in COMPETENCE_PREFIXES {
    }
  }

  lemma RecruitmentOwns(i: nat)
    requires i < |RECRUITMENT_PREFIXES|
    ensures SectionOf(RECRUITMENT_PREFIXES[i]) == "recruitment"
  {
  }

  lemma RecruitmentLists(p: string)
    requires SectionOf(p) == "recruitment"
    ensures p in RECRUITMENT_PREFIXES
  {
  }

  lemma RecruitmentClaims()
    ensures Claims(RECRUITMENT_PREFIXES, "recruitment")
  {
    forall p ensures p in RECRUITMENT_PREFIXES <==> SectionOf(p) == "recruitment" {
      if p in RECRUITMENT_PREFIXES {
        var i :| 0 <= i < |RECRUITMENT_PREFIXES| && RECRUITMENT_PREFIXES[i] == p;
        RecruitmentOwns(i);
      } else if SectionOf(p) == "recruitment" {
        RecruitmentLists(p);
      }
      hide RECRUITMENT_PREFIXES, SectionOf;
    }
  }

  lemma AssessmentsClaim()
    ensures Claims(ASSESSMENT_PREFIXES, "assessments")
  {
    forall i | 0 <= i < |ASSESSMENT_PREFIXES| ensures SectionOf(ASSESSMENT_PREFIXES[i]) == "assessments" {
    }
    forall p | SectionOf(p) == "assessments" ensures p in ASSESSMENT_PREFIXES {
    }
  }

  lemma EmployeesClaim()
    ensures Claims(["/employees"], "employees")
  {
  }

  lemma DevelopmentClaim()
    ensures Claims(["/pdp", "/analytics/pdp"], "development")
  {
  }

  lemma ExamsClaim()
    ensures Claims(["/exams", "/mass-exams"], "exams")
  {
  }

  lemma CoverageClaim()
    ensures Claims(["/work", "/primitives", "/ai-workforce"], "coverage")
  {
  }

  lemma MarketClaim()
    ensures Claims(["/talent-market"], "talent-market")
  {
  }

  lemma AnalyticsClaim()
    ensures Claims(["/analytics"], "analytics")
  {
  }

  lemma DictionariesClaim()
    ensures Claims(["/dictionaries"], "dictionaries")
  {
  }

  lemma ImportClaim()
    ensures Claims(["/import"], "import")
  {
  }

  lemma InvitationsClaim()
    ensures Claims(["/invitations"], "invitations")
  {
  }

  lemma RolesClaim()
    ensures Claims(["/roles"], "roles")
  {
  }

  lemma SettingsClaim()
    ensures Claims(["/admin/ai-settings"], "ai-settings")
  {
  }

  lemma PeopleClaim(k: nat)
    requires k < 5
    ensures Claims(PeopleSections()[k].prefixes, PeopleSections()[k].code)
  {
    CompanyClaims();
    AssessmentsClaim();
    EmployeesClaim();
    DevelopmentClaim();
    ExamsClaim();
    hide Row, Below, COMPANY_PREFIXES, ASSESSMENT_PREFIXES, Claims;
  }

  lemma WorkClaim(k: nat)
    requires k < 5
    ensures Claims(WorkSections()[k].prefixes, WorkSections()[k].code)
  {
    CompetencesClaim();
    RecruitmentClaims();
    CoverageClaim();
    MarketClaim();
    AnalyticsClaim();
    hide Row, Below, COMPETENCE_PREFIXES, RECRUITMENT_PREFIXES, Claims;
  }

  lemma OfficeClaim(k: nat)
    requires k < 5
    ensures Claims(OfficeSections()[k].prefixes, OfficeSections()[k].code)
  {
    DictionariesClaim();
    ImportClaim();
    InvitationsClaim();
    RolesClaim();
    SettingsClaim();
    hide Row, Below, Claims;
  }

  /** Where in the registry a section stands. */
  function PlaceOf(code: string): int {
    match code
    case "employees" => 0
    case "company" => 1
    case "assessments" => 2
    case "development" => 3
    case "exams" => 4
    case "competences" => 5
    case "coverage" => 6
    case "talent-market" => 7
    case "recruitment" => 8
    case "analytics" => 9
    case "dictionaries" => 10
    case "import" => 11
    case "invitations" => 12
    case "roles" => 13
    case "ai-settings" => 14
    case _ => -1
  }

  lemma PeoplePlaced(k: nat)
    requires k < 5
    ensures PlaceOf(PeopleSections()[k].code) == k
  {
    hide Row, Below;
  }

  lemma WorkPlaced(k: nat)
    requires k < 5
    ensures PlaceOf(WorkSections()[k].code) == 5 + k
  {
    hide Row, Below;
  }

  lemma OfficePlaced(k: nat)
    requires k < 5
    ensures PlaceOf(OfficeSections()[k].code) == 10 + k
  {
    hide Row, Below;
  }

  lemma OwnersArePlaced(p: string)
    ensures SectionOf(p) == "" || 0 <= PlaceOf(SectionOf(p)) < 15
  {
  }

  /** Every section of the registry stands in its place, owns the prefixes it should, and is what the tables say. */
  lemma AtPlace(k: nat)
    requires k < 15
    ensures |Registry()| == 15
    ensures var s := Registry()[k]; PlaceOf(s.code) == k && Claims(s.prefixes, s.code) && Described(s)
  {
    var people, work, office := PeopleSections(), WorkSections(), OfficeSections();
    assert |people| == |work| == |office| == 5;
    assert Registry()[k] == if k < 5 then people[k] else if k < 10 then work[k - 5] else office[k - 10];
    hide Registry, PeopleSections, WorkSections, OfficeSections, PlaceOf, Claims, Defaulted, Capped, Flagged;
    if k < 5 {
      PeoplePlaced(k);
      PeopleClaim(k);
      PeopleDefaulted(k);
      PeopleCapped(k);
    } else if k < 10 {
      WorkPlaced(k - 5);
      WorkClaim(k - 5);
      WorkDefaulted(k - 5);
      WorkCapped(k - 5);
    } else {
      OfficePlaced(k - 10);
      OfficeClaim(k - 10);
      OfficeDefaulted(k - 10);
      OfficeCapped(k - 10);
    }
  }

  lemma InRegistry(s: Section)
    requires s in Registry()
    ensures 0 <= PlaceOf(s.code) < |Registry()| == 15 && Registry()[PlaceOf(s.code)] == s
    ensures Claims(s.prefixes, s.code) && Described(s)
  {
    AtPlace(0);
    var k :| 0 <= k < |Registry()| && Registry()[k] == s;
    AtPlace(k);
    hide *;
  }

  /** No two of the fifteen sections have one code, or claim one prefix: the order of the registry does not matter. */
  lemma RegistrySharesNoPrefix()
    ensures DistinctCodes(Registry()) && NoSharedPrefix(Registry())
  {
    hide Registry, PlaceOf, Described, SectionOf;
    forall i, j | 0 <= i < j < |Registry()| ensures Registry()[i].code != Registry()[j].code {
      AtPlace(0);
      AtPlace(i);
      AtPlace(j);
    }
    forall s, t, p | s in Registry() && t in Registry() && p in s.prefixes && p in t.prefixes ensures s == t {
      InRegistry(s);
      InRegistry(t);
    }
  }

  /**
   The section that guards a route is the one the longest of its prefixes belongs to, prefix by prefix
   as listed above; a route under none of them is guarded by no section.
   */
  lemma GuardedBy(path: string, owner: Option<Section>)
    requires LongestOwner(Registry(), path, owner)
    ensures match owner
            case None => forall p :: SectionOf(p) != "" ==> !Under(path, "/api" + p)
            case Some(s) => exists p :: SectionOf(p) == s.code && Under(path, "/api" + p) && IsLongest(path, |p|)
  {
    hide Under, Registry, SectionOf, Described, PlaceOf;
    forall p | SectionOf(p) != "" && Under(path, Full(p)) ensures exists s :: s in Registry() && Owns(s, p, path) {
      var s := OwnerOf(p);
      assert Owns(s, p, path);
    }
    if owner.Some? {
      var p :| Owns(owner.value, p, path) && NoneLonger(Registry(), path, |p|);
      InRegistry(owner.value);
      assert SectionOf(p) == owner.value.code && IsLongest(path, |p|);
    }
  }

  ghost predicate IsLongest(path: string, n: nat) {
    forall p :: SectionOf(p) != "" && Under(path, Full(p)) ==> |p| <= n
  }

  lemma OwnerOf(p: string) returns (s: Section)
    requires SectionOf(p) != ""
    ensures s in Registry() && s.code == SectionOf(p) && p in s.prefixes
  {
    OwnersArePlaced(p);
    var k := PlaceOf(SectionOf(p));
    AtPlace(k);
    s := Registry()[k];
    SamePlace(s.code, SectionOf(p));
    hide *;
  }

  lemma SamePlace(a: string, b: string)
    requires PlaceOf(a) == PlaceOf(b) != -1
    ensures a == b
  {
  }

  // ----- Without any stored row

  /** Who manages a section by default. */
  function Managers(code: string): set<Role> {
    match code
    case "employees" => {Admin, DivisionManager}
    case "company" => {Admin, DivisionManager}
    case "assessments" => {Admin, DivisionManager}
    case "development" => {Admin, DivisionManager}
    case "exams" => {Admin, DivisionManager}
    case "talent-market" => {Admin, DivisionManager}
    case "competences" => {Admin, Hr}
    case "coverage" => {Admin, Hr}
    case "dictionaries" => {Admin, Hr}
    case "recruitment" => {Admin, Hr, Recruiter}
    case "analytics" => {Admin, Hr, DivisionManager}
    case "invitations" => {Admin, Hr, DivisionManager}
    case _ => {Admin}
  }

  /** Who else may look at it. */
  function Viewers(code: string): set<Role> {
    match code
    case "competences" => {DivisionManager}
    case "coverage" => {DivisionManager, Recruiter, HiringManager, Employee}
    case "recruitment" => {DivisionManager, HiringManager}
    case "employees" => {Hr, Recruiter, HiringManager, Employee}
    case "company" => {Hr, Recruiter, HiringManager, Employee}
    case "assessments" => {Hr, Recruiter, HiringManager, Employee}
    case "development" => {Hr, Recruiter, HiringManager, Employee}
    case "exams" => {Hr, Recruiter, HiringManager, Employee}
    case "talent-market" => {Hr, Recruiter, HiringManager, Employee}
    case _ => {}
  }

  function DefaultFor(role: Role, code: string): Level {
    if role in Managers(code) then Manage else if role in Viewers(code) then View else NoAccess
  }

  // ----- At most

  /** The highest level that can be stored for a role. */
  function HighestFor(role: Role, code: string): Level {
    match code
    case "employees" => if role in {Recruiter, HiringManager, Employee} then View else Manage
    case "invitations" => if role in {Recruiter, HiringManager, Employee} then NoAccess else Manage
    case "roles" => if role != Admin then View else Manage
    case "recruitment" => if role == Employee then NoAccess else Manage
    case _ => Manage
  }

  predicate IsLocked(code: string) {
    code in {"company", "dictionaries", "import", "invitations", "roles", "ai-settings"}
  }

  ghost predicate Defaulted(s: Section) {
    Complete(s) && forall r :: r in ROLES ==> s.defaults[r] == DefaultFor(r, s.code)
  }

  ghost predicate Capped(s: Section) {
    forall r :: r in ROLES ==> Ceiling(s, r) == HighestFor(r, s.code)
  }

  /** The sections that cannot be hidden. */
  predicate StaysVisible(code: string) {
    IsLocked(code) || code == "employees"
  }

  /** The sections whose writes the gate itself checks; the others' own dependencies do. */
  predicate ChecksWrites(code: string) {
    code in {"exams", "analytics", "dictionaries", "import", "invitations", "roles", "ai-settings"}
  }

  predicate Flagged(s: Section) {
    && (s.adminLocked <==> IsLocked(s.code)) && (s.neverHidden <==> StaysVisible(s.code))
    && (s.selfGuarded <==> !ChecksWrites(s.code))
  }

  lemma PeopleDefaulted(k: nat)
    requires k < 5
    ensures Defaulted(PeopleSections()[k])
  {
    RolesAreSix();
    hide ROLES, COMPANY_PREFIXES, ASSESSMENT_PREFIXES, Below;
  }

  lemma WorkDefaulted(k: nat)
    requires k < 5
    ensures Defaulted(WorkSections()[k])
  {
    RolesAreSix();
    hide ROLES, COMPETENCE_PREFIXES, RECRUITMENT_PREFIXES, Below;
  }

  lemma OfficeDefaulted(k: nat)
    requires k < 5
    ensures Defaulted(OfficeSections()[k])
  {
    RolesAreSix();
    hide ROLES, Below;
  }

  lemma PeopleCapped(k: nat)
    requires k < 5
    ensures Capped(PeopleSections()[k]) && Flagged(PeopleSections()[k])
  {
    RolesAreSix();
    hide ROLES, COMPANY_PREFIXES, ASSESSMENT_PREFIXES, Row;
  }

  lemma WorkCapped(k: nat)
    requires k < 5
    ensures Capped(WorkSections()[k]) && Flagged(WorkSections()[k])
  {
    RolesAreSix();
    hide ROLES, COMPETENCE_PREFIXES, RECRUITMENT_PREFIXES, Row;
  }

  lemma OfficeCapped(k: nat)
    requires k < 5
    ensures Capped(OfficeSections()[k]) && Flagged(OfficeSections()[k])
  {
    RolesAreSix();
    hide ROLES, Row;
  }

  ghost predicate Described(s: Section) {
    Defaulted(s) && Capped(s) && Flagged(s)
  }

  /** What the tables say of one cell, and that its default and its floor respect its ceiling. */
  lemma CellOf(s: Section, role: Role)
    requires s in Registry() && role in ROLES
    ensures Complete(s) && s.defaults[role] == DefaultFor(role, s.code)
    ensures Ceiling(s, role) == HighestFor(role, s.code) && AtMost(s.defaults[role], Ceiling(s, role))
    ensures Ceiling(s, Admin) == Manage && Flagged(s)
  {
    InRegistry(s);
    RegistryIsSound();
    hide Registry, ROLES, DefaultFor, HighestFor, PlaceOf, Claims, Flagged, AtMost, Ceiling;
  }

  /** Where a tenant has stored nothing, each role has in each section what this table gives it. */
  lemma DefaultAccess(s: Section, role: Role)
    requires s in Registry() && role in ROLES
    ensures Complete(s) && SectionLevel(s, {role}, map[], {}) == DefaultFor(role, s.code)
  {
    CellOf(s, role);
    hide *;
    if s.adminLocked && role == Admin {
      AdminIsNeverLockedOut(s, {role}, map[], {});
      ManageIsHighest(s.defaults[role]);
      AdminDefault(s.code);
    } else {
      UnstoredGivesDefault(s, role);
    }
  }

  lemma AdminDefault(code: string)
    ensures DefaultFor(Admin, code) == Manage
  {
  }

  lemma ManageIsHighest(level: Level)
    ensures AtMost(level, Manage) && AtMost(NoAccess, level)
  {
  }

  lemma UnstoredGivesDefault(s: Section, role: Role)
    requires Complete(s) && role in ROLES && !(s.adminLocked && role == Admin)
    requires AtMost(s.defaults[role], Ceiling(s, role))
    ensures SectionLevel(s, {role}, map[], {}) == s.defaults[role]
  {
    StoredLevelDecides(s, role, map[], {});
    hide SectionLevel, ROLES;
  }

  lemma StoredGivesCeiling(s: Section, role: Role, overrides: Overrides, hidden: set<string>)
    requires Complete(s) && role in ROLES && !(s.adminLocked && role == Admin)
    ensures AtMost(SectionLevel(s, {role}, overrides, hidden), Ceiling(s, role))
    ensures SectionLevel(s, {role}, map[(s.code, role) := Manage], {}) == Ceiling(s, role)
  {
    StoredLevelDecides(s, role, overrides, hidden);
    StoredLevelDecides(s, role, map[(s.code, role) := Manage], {});
    hide SectionLevel, ROLES, Complete;
  }

  lemma HidingOne(s: Section, role: Role, overrides: Overrides)
    requires Complete(s) && role in ROLES && !(s.adminLocked && role == Admin)
    ensures SectionLevel(s, {role}, overrides, {s.code}) ==
            if s.neverHidden then SectionLevel(s, {role}, overrides, {}) else NoAccess
  {
    StoredLevelDecides(s, role, overrides, {});
    StoredLevelDecides(s, role, overrides, {s.code});
    hide SectionLevel, ROLES, Complete, AtMost;
  }

  /**
   Whatever a tenant stores and hides, no role gets more than this table allows it, and by storing
   `manage` it gets exactly that.
   */
  lemma HighestAccess(s: Section, role: Role, overrides: Overrides, hidden: set<string>)
    requires s in Registry() && role in ROLES
    ensures Complete(s) && AtMost(SectionLevel(s, {role}, overrides, hidden), HighestFor(role, s.code))
    ensures SectionLevel(s, {role}, map[(s.code, role) := Manage], {}) == HighestFor(role, s.code)
  {
    CellOf(s, role);
    hide *;
    if s.adminLocked && role == Admin {
      AdminIsNeverLockedOut(s, {role}, map[(s.code, role) := Manage], {});
      ManageIsHighest(SectionLevel(s, {role}, overrides, hidden));
    } else {
      StoredGivesCeiling(s, role, overrides, hidden);
    }
  }

  ghost predicate AlwaysManaged(s: Section)
    requires Complete(s)
  {
    forall overrides, hidden :: SectionLevel(s, {Admin}, overrides, hidden) == Manage
  }

  lemma LockedIsManaged(s: Section)
    requires Complete(s) && s.adminLocked
    ensures AlwaysManaged(s)
  {
    hide SectionLevel;
    forall overrides, hidden ensures SectionLevel(s, {Admin}, overrides, hidden) == Manage {
      AdminIsNeverLockedOut(s, {Admin}, overrides, hidden);
    }
  }

  lemma UnlockedIsLost(s: Section)
    requires Complete(s) && !s.adminLocked && Admin in ROLES
    ensures !AlwaysManaged(s)
  {
    StoredLevelDecides(s, Admin, map[(s.code, Admin) := NoAccess], {});
    hide SectionLevel, ROLES;
    assert SectionLevel(s, {Admin}, map[(s.code, Admin) := NoAccess], {}) == NoAccess;
  }

  /** The admin keeps managing a section, whatever is stored and hidden, exactly where it is locked. */
  lemma AdminKeeps(s: Section)
    requires s in Registry()
    ensures Complete(s) && (IsLocked(s.code) <==> AlwaysManaged(s))
  {
    InRegistry(s);
    assert Complete(s) && (s.adminLocked <==> IsLocked(s.code));
    assert Admin in ROLES by { assert ROLES[0] == Admin; }
    hide *;
    if s.adminLocked {
      LockedIsManaged(s);
    } else {
      UnlockedIsLost(s);
    }
  }

  /** Hiding a section closes it to every role, or does nothing at all where it must stay visible. */
  lemma HidingCloses(s: Section, role: Role, overrides: Overrides)
    requires s in Registry() && role in ROLES
    ensures Complete(s)
    ensures SectionLevel(s, {role}, overrides, {s.code}) ==
            if StaysVisible(s.code) then SectionLevel(s, {role}, overrides, {}) else NoAccess
  {
    CellOf(s, role);
    assert (s.neverHidden <==> StaysVisible(s.code)) && (s.adminLocked ==> s.neverHidden);
    hide *;
    if s.adminLocked && role == Admin {
      AdminIsNeverLockedOut(s, {role}, overrides, {});
      AdminIsNeverLockedOut(s, {role}, overrides, {s.code});
    } else {
      HidingOne(s, role, overrides);
    }
  }

  /** Who may only look is refused a write by the gate in these sections, and nowhere a read. */
  lemma GateChecksWrites(s: Section, httpMethod: string)
    requires s in Registry()
    ensures Denies(s, View, httpMethod) <==> ChecksWrites(s.code) && httpMethod !in ["GET", "HEAD", "OPTIONS"]
  {
    InRegistry(s);
    hide Registry, PlaceOf, Claims, Defaulted, Capped, IsLocked, ChecksWrites;
    GateIsAThreshold(s, View, httpMethod);
  }
}
