/**
 * Which lists the proxy's tables keep current against the writes of the fake backend: all of those it
 * serves but the two of course selection, which enrolling and cancelling change and no rule names.
 */
module CatalogCoverage {
  import opened Common
  import opened Paths
  import opened CatalogCache
  import opened CatalogTables
  import opened ProxyRuns
  import Enrolling = EnrollmentMachine

  // ---------- What the fake backend's writes change ----------

  /** What its cacheable lists are made from; of an enrolment they show only whether it is active or passed. */
  datatype Rows = SemesterRows | LessonRows | WeekRows | SettingsRows | PlaceRows | EnrolmentStates

  datatype Change =
    | AddSemester
    | EditSemester(id: string)
    | DropSemester(id: string)
    | SetLessonStatus(id: string)
    | SetLessonStatuses
    | SetLessonWeeks(id: string)
    | AddWeek
    | EditWeek(id: string)
    | SaveSettings
    | SetPlaces
    | Enrol
    | CancelEnrolment(id: string)

  const LESSONS := "admin/lessons"
  const WEEKS := "admin/weeks"
  const CAPACITIES := "admin/professor-capacities"
  const ENROLMENTS := "v1/student-enrollments"

  function PathOf(c: Change): string {
    match c
    case AddSemester => SEMESTER
    case EditSemester(id) => SEMESTER + "/" + id
    case DropSemester(id) => SEMESTER + "/" + id
    case SetLessonStatus(id) => LESSONS + "/" + id + "/status"
    case SetLessonStatuses => LESSONS + "/" + "status"
    case SetLessonWeeks(id) => LESSONS + "/" + id + "/weeks"
    case AddWeek => WEEKS
    case EditWeek(id) => WEEKS + "/" + id
    case SaveSettings => SETTINGS
    case SetPlaces => CAPACITIES
    case Enrol => ENROLMENTS
    case CancelEnrolment(id) => ENROLMENTS + "/" + id + "/cancel"
  }

  function WrittenBy(c: Change): set<Rows> {
    match c
    case AddSemester => {SemesterRows, LessonRows}
    case EditSemester(_) => {SemesterRows}
    case DropSemester(_) => {SemesterRows, LessonRows, WeekRows, PlaceRows}
    case SetLessonStatus(_) => {LessonRows}
    case SetLessonStatuses => {LessonRows}
    case SetLessonWeeks(_) => {WeekRows}
    case AddWeek => {WeekRows}
    case EditWeek(_) => {WeekRows}
    case SaveSettings => {SettingsRows}
    case SetPlaces => {PlaceRows}
    case Enrol => {EnrolmentStates}
    case CancelEnrolment(_) => {EnrolmentStates}
  }

  /** The other lists it serves, provinces and roles, are never written. */
  function ReadBy(p: string): set<Rows> {
    if p == SEMESTER then {SemesterRows}
    else if p == SEMESTERS_ALL then {SemesterRows, LessonRows, WeekRows}
    else if p == SETTINGS then {SettingsRows}
    else if p == PROFESSORS then {PlaceRows, EnrolmentStates}
    else if p == OPEN_SELECTION then {SemesterRows, LessonRows, EnrolmentStates}
    else {}
  }

  /** A route parameter is not empty. */
  predicate Named(c: Change) {
    match c
    case EditSemester(id) => id != ""
    case DropSemester(id) => id != ""
    case SetLessonStatus(id) => id != ""
    case SetLessonWeeks(id) => id != ""
    case EditWeek(id) => id != ""
    case CancelEnrolment(id) => id != ""
    case _ => true
  }

  predicate Alters(c: Change, p: string) {
    Named(c) && !(WrittenBy(c) !! ReadBy(p))
  }

  /** The proxy with its own tables in front of the fake backend. */
  ghost predicate FrontsTheFake(site: Site) {
    && site.rules == RULES
    && forall m, p :: site.touches(m, p) <==> exists c :: PathOf(c) == m && Alters(c, p)
  }

  // ---------- What the tables cover ----------

  lemma RuleReaches(r: Rules, i: nat, m: string, p: string)
    requires i < |r.cascade| && r.cascade[i].test.Test(m) && p in r.cascade[i].also
    ensures Affects(r, m, p)
  {
  }

  lemma SemesterIsCovered(c: Change)
    requires Alters(c, SEMESTER)
    ensures Affects(RULES, PathOf(c), SEMESTER)
  {
    if c.EditSemester? || c.DropSemester? {
      ItemWriteRefreshesList(SEMESTER, c.id);
    }
  }

  lemma TermsRules()
    ensures RULES.cascade[0] == CascadeRule(Is(SEMESTER), [SEMESTERS_ALL])
    ensures RULES.cascade[1] == CascadeRule(Below(SEMESTER), [SEMESTER, SEMESTERS_ALL])
    ensures RULES.cascade[2] == CascadeRule(Under(LESSONS), [SEMESTERS_ALL])
    ensures RULES.cascade[3] == CascadeRule(Is(WEEKS), [SEMESTERS_ALL])
    ensures RULES.cascade[4] == CascadeRule(Under(WEEKS), [SEMESTERS_ALL])
  {
  }

  lemma OneTermDropsAll(id: string)
    requires id != ""
    ensures Affects(RULES, SEMESTER + "/" + id, SEMESTERS_ALL)
  {
    TermsRules();
    assert SEMESTER + "/" <= SEMESTER + "/" + id;
    RuleReaches(RULES, 1, SEMESTER + "/" + id, SEMESTERS_ALL);
  }

  lemma LessonsDropAll(rest: string)
    ensures Affects(RULES, LESSONS + "/" + rest, SEMESTERS_ALL)
  {
    TermsRules();
    assert LESSONS + "/" <= LESSONS + "/" + rest;
    RuleReaches(RULES, 2, LESSONS + "/" + rest, SEMESTERS_ALL);
  }

  lemma WeeksDropAll(rest: string)
    ensures Affects(RULES, WEEKS, SEMESTERS_ALL) && Affects(RULES, WEEKS + "/" + rest, SEMESTERS_ALL)
  {
    TermsRules();
    assert WEEKS + "/" <= WEEKS + "/" + rest;
    RuleReaches(RULES, 3, WEEKS, SEMESTERS_ALL);
    RuleReaches(RULES, 4, WEEKS + "/" + rest, SEMESTERS_ALL);
  }

  lemma NewTermDropsAll()
    ensures Affects(RULES, SEMESTER, SEMESTERS_ALL)
  {
    TermsRules();
    RuleReaches(RULES, 0, SEMESTER, SEMESTERS_ALL);
  }

  lemma AllTermsAreCovered(c: Change)
    requires Named(c) && (c.AddSemester? || c.EditSemester? || c.DropSemester? || c.SetLessonStatus?
                          || c.SetLessonStatuses? || c.SetLessonWeeks? || c.AddWeek? || c.EditWeek?)
    ensures Affects(RULES, PathOf(c), SEMESTERS_ALL)
  {
    match c
    case AddSemester => NewTermDropsAll();
    case EditSemester(id) => OneTermDropsAll(id);
    case DropSemester(id) => OneTermDropsAll(id);
    case SetLessonStatus(id) =>
      LessonsDropAll(id + "/status");
      assert LESSONS + "/" + id + "/status" == LESSONS + "/" + (id + "/status");
    case SetLessonStatuses => LessonsDropAll("status");
    case SetLessonWeeks(id) =>
      LessonsDropAll(id + "/weeks");
      assert LESSONS + "/" + id + "/weeks" == LESSONS + "/" + (id + "/weeks");
    case AddWeek => WeeksDropAll("");
    case EditWeek(id) => WeeksDropAll(id);
  }

  /** Every list the rules name is an administration list. */
  ghost predicate AllAdmin(cascade: seq<CascadeRule>) {
    forall i, p :: 0 <= i < |cascade| && p in cascade[i].also ==> p != "" && p[0] == 'a'
  }

  lemma RulesNameAdminLists()
    ensures AllAdmin(CASCADE)
  {
  }

  /** A list of course selection is dropped by a write of its own path only. */
  lemma SelectionListsAreUnnamed(m: string, p: string)
    requires p in {PROFESSORS, OPEN_SELECTION}
    ensures Affects(RULES, m, p) <==> m == p
  {
    RulesNameAdminLists();
    assert PROFESSORS[0] == 'v' && OPEN_SELECTION[0] == 'v';
  }

  lemma EnrollingIsElsewhere()
    ensures ENROLMENTS != PROFESSORS && ENROLMENTS != OPEN_SELECTION
  {
    assert |ENROLMENTS| == 22 && |PROFESSORS| == 33;
  }

  lemma ListsDiffer()
    ensures |SEMESTER| == 14 && |SEMESTERS_ALL| == 19 && |SETTINGS| == 14 && SETTINGS[6] == 's' && SETTINGS[8] == 't'
    ensures SEMESTER[8] == 'm' && |PROFESSORS| == 33 && |OPEN_SELECTION| == 44
  {
  }

  lemma FakeWritesAreCovered(c: Change, p: string)
    requires Alters(c, p) && p !in {PROFESSORS, OPEN_SELECTION}
    ensures Affects(RULES, PathOf(c), p)
  {
    ListsDiffer();
    if p == SEMESTER {
      SemesterIsCovered(c);
    } else if p == SEMESTERS_ALL {
      AllTermsAreCovered(c);
    } else {
      assert p == SETTINGS && c == SaveSettings;
    }
  }

  /** The tables cover every list the fake backend serves but the two of course selection. */
  lemma AllButSelectionAreCovered(site: Site, p: string)
    requires FrontsTheFake(site)
    ensures CoversList(site, p) <==> p !in {PROFESSORS, OPEN_SELECTION}
  {
    if p in {PROFESSORS, OPEN_SELECTION} {
      EnrolmentIsUncovered(site, p);
    } else {
      forall m | site.touches(m, p) ensures Affects(site.rules, m, p) {
        var c :| PathOf(c) == m && Alters(c, p);
        FakeWritesAreCovered(c, p);
      }
    }
  }

  lemma EnrolmentIsUncovered(site: Site, p: string)
    requires FrontsTheFake(site) && p in {PROFESSORS, OPEN_SELECTION}
    ensures site.touches(ENROLMENTS, p) && !Affects(RULES, ENROLMENTS, p)
  {
    ListsDiffer();
    EnrollingIsElsewhere();
    SelectionListsAreUnnamed(ENROLMENTS, p);
    assert EnrolmentStates in WrittenBy(Enrol) && EnrolmentStates in ReadBy(p);
    assert PathOf(Enrol) == ENROLMENTS && Alters(Enrol, p);
  }

  /**
   * So in front of the fake backend the hits under a key are current in every run exactly when
   * its list is not one of those two.
   */
  lemma FakeHitsAreCurrentIff(site: Site, key: string)
    requires FrontsTheFake(site) && GetCatalogCacheTtl(RULES, key).Some? && Tells(site, key)
    ensures AlwaysCurrent(site, key) <==> KeyPath(key) !in {PROFESSORS, OPEN_SELECTION}
  {
    TablesArePlain();
    CurrentIffCovered(site, key);
    AllButSelectionAreCovered(site, KeyPath(key));
  }

  /** Only the list of the term open for selection depends on who asks: the route reads the user. */
  ghost predicate OnlySelectionReadsTheUser(site: Site) {
    forall u, v, key, n: nat :: KeyPath(key) != OPEN_SELECTION ==> site.render(u, key, n) == site.render(v, key, n)
  }

  lemma FakeHitsAreRightIff(site: Site, key: string)
    requires FrontsTheFake(site) && OnlySelectionReadsTheUser(site)
    requires GetCatalogCacheTtl(RULES, key).Some? && Tells(site, key)
    ensures AlwaysRight(site, key) <==> KeyPath(key) !in {PROFESSORS, OPEN_SELECTION}
  {
    TablesArePlain();
    RightIffCoveredAndShared(site, key);
    AllButSelectionAreCovered(site, KeyPath(key));
  }

  /** Enrolling, or any other write that the list shows, leaves the list from before it to be served. */
  lemma EnrollingLeavesTheList(site: Site, u: Viewer, v: Viewer, key: string)
    requires FrontsTheFake(site) && KeyPath(key) in {PROFESSORS, OPEN_SELECTION}
    requires GetCatalogCacheTtl(RULES, key).Some? && site.render(u, key, site.start(KeyPath(key))) != ""
    ensures var w := Run(site, [Get(u, key), Post(v, ENROLMENTS)]);
      var hit := Hit(RULES, w.store, key, w.now);
      && hit.Some? && hit.value.body == site.render(u, key, site.start(KeyPath(key)))
      && CurrentBody(site, w.versions, u, key) == site.render(u, key, site.start(KeyPath(key)) + 1)
  {
    TablesArePlain();
    EnrolmentIsUncovered(site, KeyPath(key));
    UncoveredGoesStale(site, u, v, ENROLMENTS, key);
  }

  // ---------- Why enrolling changes them ----------

  /** A professor's row shows the places left and goes with the last one. */
  function PlacesShown(s: Enrolling.State, professor: nat, semester: nat, lesson: nat): Option<int> {
    var left := Enrolling.Remaining(s, professor, semester, lesson);
    if left > 0 then Some(left) else None
  }

  /** What a student is shown of a lesson of the open term. */
  predicate CanSelect(d: Enrolling.Directory, s: Enrolling.State, student: nat, lesson: nat) {
    lesson in d.lessons && d.lessons[lesson].offered && !Enrolling.Blocked(s, student, lesson)
  }

  /** Every successful enrolment changes a row of both lists. */
  lemma EnrollingChangesBothLists(
      d: Enrolling.Directory, s: Enrolling.State, user: Enrolling.User, c: Enrolling.Choice)
    requires Enrolling.EnrolStatus(d, s, user, c) == 204
    ensures var t := Enrolling.CreateRecords(s, user.id, c);
      && PlacesShown(t, c.professor, c.semester, c.lesson) != PlacesShown(s, c.professor, c.semester, c.lesson)
      && CanSelect(d, s, user.id, c.lesson) && !CanSelect(d, t, user.id, c.lesson)
  {
    Enrolling.EnrolmentTakesOnePlace(d, s, user, c, c.professor, c.semester, c.lesson);
    var t := Enrolling.CreateRecords(s, user.id, c);
    var last := t.enrollments[|s.enrollments|];
    assert last.student == user.id && last.lesson == c.lesson && last.status.Active?;
  }

  // ---------- One viewer's list for another ----------

  lemma PlainTest(t: ListPattern, p: string)
    requires '?' !in p
    ensures t.Test(p) <==> p == t.path
  {
    assert (t.path + "?")[|t.path|] == '?';
  }

  lemma {:induction false} FirstNamed(rules: seq<ListRule>, k: nat, p: string)
    requires '?' !in p && k < |rules| && rules[k].test.path == p
    requires forall i :: 0 <= i < k ==> rules[i].test.path != p
    ensures FirstTtl(rules, p) == Some(rules[k].ttlMs)
  {
    PlainTest(rules[0].test, p);
    if k > 0 {
      FirstNamed(rules[1..], k - 1, p);
    }
  }

  lemma SelectionIsTheLongestName()
    ensures |CACHEABLE| == 15 && CACHEABLE[14] == ListRule(OptionalQuery(OPEN_SELECTION), 60_000)
    ensures forall i :: 0 <= i < 14 ==> |CACHEABLE[i].test.path| < 44
  {
  }

  /** The term open for selection is kept for a minute. */
  lemma SelectionIsKeptAMinute()
    ensures '?' !in OPEN_SELECTION && GetCatalogCacheTtl(RULES, OPEN_SELECTION) == Some(60_000)
  {
    PlainSelectionName();
    SelectionIsTheLongestName();
    ListsDiffer();
    FirstNamed(CACHEABLE, 14, OPEN_SELECTION);
  }

  /** The term the route picks for the user is open and has the structure of the user's role. */
  predicate OpenFor(d: Enrolling.Directory, user: Enrolling.User, term: nat) {
    term in d.semesters && d.semesters[term] == Enrolling.Semester(Enrolling.StructureOf(user), true)
  }

  /** For a minute after a student asked, a trainee is served the student's term, which is not open for the trainee. */
  lemma TraineeGetsStudentsTerm(site: Site, d: Enrolling.Directory, student: Enrolling.User, trainee: Enrolling.User,
                                u: Viewer, v: Viewer, term: string -> nat, ms: nat)
    requires site.rules == RULES && student.role.Student? && trainee.role.Trainee? && ms <= 60_000
    requires var n := site.start(OPEN_SELECTION);
      && site.render(u, OPEN_SELECTION, n) != "" && OpenFor(d, student, term(site.render(u, OPEN_SELECTION, n)))
      && OpenFor(d, trainee, term(site.render(v, OPEN_SELECTION, n)))
    ensures var w := Run(site, [Get(u, OPEN_SELECTION), Tick(ms)]);
      var hit := Hit(RULES, w.store, OPEN_SELECTION, w.now);
      && hit.Some? && OpenFor(d, student, term(hit.value.body)) && !OpenFor(d, trainee, term(hit.value.body))
      && !ServedRight(site, w, v, OPEN_SELECTION)
  {
    SelectionIsKeptAMinute();
    QueryCutAt(OPEN_SELECTION, "");
    ServedUntilItExpires(site, u, OPEN_SELECTION, ms);
  }
}
