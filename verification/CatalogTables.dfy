/** The proxy's own two tables, and which lists a write to one of their items refreshes. */
module CatalogTables {
  import opened Common
  import opened CatalogCache

  const HOUR := 3_600_000
  const HALF_HOUR := 1_800_000

  const PROVINCE_ALL := "admin/province/all"
  const PROVINCES := "admin/provinces"
  const CITIES := "admin/cities"
  const EDUCATIONS := "admin/educations"
  const SCHOOLS_ALL := "admin/schools/all"
  const SCHOOLS := "admin/schools"
  const UNIVERSITIES := "admin/universites"
  const DEGREES := "admin/degreeee"
  const ROLES := "admin/roles"
  const AUTH_ROLES := "v1/auth/roles"
  const SEMESTER := "admin/semester"
  const SEMESTERS_ALL := "admin/semesters_all"
  const SETTINGS := "admin/settings"
  const PROFESSORS := "v1/student-enrollments/professors"
  const OPEN_SELECTION := "v1/student-enrollments/open-course-selection"

  const GEO_RULES: seq<ListRule> := [
    ListRule(Exact(PROVINCE_ALL), HOUR),
    ListRule(OptionalQuery(PROVINCES), HOUR),
    ListRule(OptionalQuery(CITIES), HOUR),
    ListRule(OptionalQuery(EDUCATIONS), HOUR)
  ]
  const SCHOOL_RULES: seq<ListRule> := [
    ListRule(Exact(SCHOOLS_ALL), HOUR),
    ListRule(OptionalQuery(SCHOOLS), HOUR),
    ListRule(OptionalQuery(UNIVERSITIES), HOUR),
    ListRule(OptionalQuery(DEGREES), HOUR)
  ]
  const TERM_RULES: seq<ListRule> := [
    ListRule(Exact(ROLES), HOUR),
    ListRule(Exact(AUTH_ROLES), HOUR),
    ListRule(OptionalQuery(SEMESTER), HALF_HOUR),
    ListRule(OptionalQuery(SEMESTERS_ALL), HALF_HOUR),
    ListRule(OptionalQuery(SETTINGS), HALF_HOUR)
  ]
  const ENROLLMENT_RULES: seq<ListRule> := [
    ListRule(OptionalQuery(PROFESSORS), 300_000),
    ListRule(OptionalQuery(OPEN_SELECTION), 60_000)
  ]
  const CACHEABLE := GEO_RULES + SCHOOL_RULES + TERM_RULES + ENROLLMENT_RULES

  const CASCADE: seq<CascadeRule> := [
    CascadeRule(Is(SEMESTER), [SEMESTERS_ALL]),
    CascadeRule(Below(SEMESTER), [SEMESTER, SEMESTERS_ALL]),
    CascadeRule(Under("admin/lessons"), [SEMESTERS_ALL]),
    CascadeRule(Is("admin/weeks"), [SEMESTERS_ALL]),
    CascadeRule(Under("admin/weeks"), [SEMESTERS_ALL]),
    CascadeRule(Is(PROVINCES), [PROVINCE_ALL]),
    CascadeRule(Below(PROVINCES), [PROVINCES, PROVINCE_ALL]),
    CascadeRule(Below(CITIES), [CITIES]),
    CascadeRule(Below(EDUCATIONS), [EDUCATIONS]),
    CascadeRule(Is(SCHOOLS), [SCHOOLS_ALL]),
    CascadeRule(Below(SCHOOLS), [SCHOOLS, SCHOOLS_ALL]),
    CascadeRule(Glued(SCHOOLS), [SCHOOLS, SCHOOLS_ALL]),
    CascadeRule(Below(UNIVERSITIES), [UNIVERSITIES]),
    CascadeRule(Is("admin/degree"), [DEGREES]),
    CascadeRule(Below("admin/degree"), [DEGREES])
  ]

  const RULES := Rules(CACHEABLE, CASCADE)

  lemma PlainNames()
    ensures '?' !in PROVINCE_ALL && '?' !in PROVINCES && '?' !in CITIES && '?' !in EDUCATIONS
  {
  }

  lemma PlainSchoolNames()
    ensures '?' !in SCHOOLS_ALL && '?' !in SCHOOLS && '?' !in UNIVERSITIES && '?' !in DEGREES
  {
  }

  lemma PlainRoleNames()
    ensures '?' !in ROLES && '?' !in AUTH_ROLES
  {
  }

  lemma PlainTermNames()
    ensures '?' !in SEMESTER && '?' !in SEMESTERS_ALL && '?' !in SETTINGS
  {
  }

  lemma PlainProfessorsName()
    ensures '?' !in PROFESSORS
  {
  }

  lemma PlainSelectionName()
    ensures '?' !in OPEN_SELECTION
  {
  }

  lemma EachPlain(rules: seq<ListRule>)
    requires forall i :: 0 <= i < |rules| ==> '?' !in rules[i].test.path
    ensures AllPlain(rules)
  {
  }

  lemma GeoIsPlain()
    ensures AllPlain(GEO_RULES)
  {
    PlainNames();
    EachPlain(GEO_RULES);
  }

  lemma SchoolsArePlain()
    ensures AllPlain(SCHOOL_RULES)
  {
    PlainSchoolNames();
    EachPlain(SCHOOL_RULES);
  }

  lemma TermsArePlain()
    ensures AllPlain(TERM_RULES)
  {
    PlainRoleNames();
    PlainTermNames();
    EachPlain(TERM_RULES);
  }

  lemma EnrollmentIsPlain()
    ensures AllPlain(ENROLLMENT_RULES)
  {
    PlainProfessorsName();
    PlainSelectionName();
    EachPlain(ENROLLMENT_RULES);
  }

  /** The tables meet the one condition the freshness theorems ask of them. */
  lemma TablesArePlain()
    ensures PlainPaths(RULES)
  {
    GeoIsPlain();
    SchoolsArePlain();
    TermsArePlain();
    EnrollmentIsPlain();
    AllPlainConcat(GEO_RULES, SCHOOL_RULES);
    AllPlainConcat(GEO_RULES + SCHOOL_RULES, TERM_RULES);
    AllPlainConcat(GEO_RULES + SCHOOL_RULES + TERM_RULES, ENROLLMENT_RULES);
  }

  lemma BelowRuleRefreshes(r: Rules, i: nat, base: string, id: string)
    requires i < |r.cascade| && r.cascade[i].test == Below(base) && base in r.cascade[i].also
    requires id != ""
    ensures Affects(r, base + "/" + id, base)
  {
    assert base + "/" <= base + "/" + id;
  }

  /** Writing one item of these lists drops the cached list as well, whatever the item's id. */
  lemma ItemWriteRefreshesList(base: string, id: string)
    requires base in {SEMESTER, PROVINCES, CITIES, EDUCATIONS, SCHOOLS, UNIVERSITIES}
    requires id != ""
    ensures Affects(RULES, base + "/" + id, base)
  {
    if base == SEMESTER {
      BelowRuleRefreshes(RULES, 1, base, id);
    } else if base == PROVINCES {
      BelowRuleRefreshes(RULES, 6, base, id);
    } else if base == CITIES {
      BelowRuleRefreshes(RULES, 7, base, id);
    } else if base == EDUCATIONS {
      BelowRuleRefreshes(RULES, 8, base, id);
    } else if base == SCHOOLS {
      BelowRuleRefreshes(RULES, 10, base, id);
    } else {
      BelowRuleRefreshes(RULES, 12, base, id);
    }
  }
}
