/** The editable course catalogue and the counter that numbers its enrolment levels. */
module CourseCatalog {
  import opened Common

  datatype Kind = Internship | Apprenticeship
  datatype Audience = Semester | Modular

  /** `Legacy(kind, n)` is an id of the form `course_{kind}_{n}`; any other string is `Other`. */
  datatype Id = Legacy(kind: Kind, n: nat) | Other(tag: nat)

  datatype Sub = Sub(id: Id, title: string, level: Option<nat>)
  datatype Course = Course(
    id: Id, title: string, audience: Audience, isActive: bool, level: Option<nat>, subs: seq<Sub>)

  datatype SubInput = SubInput(id: Option<Id>, title: string)
  datatype Input = Input(title: string, audience: Audience, isActive: bool, subs: seq<SubInput>)

  const BASE: nat := 100

  /** The source tests a stored level for truth, so 0 counts as none. */
  predicate Truthy(level: Option<nat>) {
    level.Some? && level.value != 0
  }

  function Counter(levelSeq: Option<nat>): nat {
    if levelSeq.Some? && levelSeq.value > BASE then levelSeq.value else BASE
  }

  // ---------- Building a course from its form ----------

  function KnownIds(subs: seq<Sub>): set<Id> {
    set i | 0 <= i < |subs| :: subs[i].id
  }

  /** `new Map(entries).get(id)`: the last entry for the id wins. */
  function KnownLevel(subs: seq<Sub>, id: Id): Option<nat> {
    if subs == [] then None
    else if id in KnownIds(subs[1..]) then KnownLevel(subs[1..], id)
    else if subs[0].id == id then subs[0].level
    else None
  }

  /** `minted` is the id a new sub-module would get. */
  function BuildSub(known: seq<Sub>, input: SubInput, minted: Id): Sub {
    var id := if input.id.Some? && input.id.value in KnownIds(known) then input.id.value else minted;
    var level := KnownLevel(known, id);
    Sub(id, Trim(input.title), if Truthy(level) then level else None)
  }

  function BuildSubs(known: seq<Sub>, inputs: seq<SubInput>, minted: seq<Id>): (subs: seq<Sub>)
    requires |minted| == |inputs|
    ensures |subs| == |inputs|
    ensures forall i :: 0 <= i < |inputs| ==> subs[i] == BuildSub(known, inputs[i], minted[i])
  {
    seq(|inputs|, i requires 0 <= i < |inputs| => BuildSub(known, inputs[i], minted[i]))
  }

  function Build(existing: Course, input: Input, minted: seq<Id>): Course
    requires |minted| == |input.subs|
  {
    Course(existing.id, Trim(input.title), input.audience, input.isActive,
           if Truthy(existing.level) then existing.level else None,
           BuildSubs(existing.subs, input.subs, minted))
  }

  /** What a new course is built from: nothing but its id. */
  function Blank(id: Id): Course {
    Course(id, "", Semester, false, None, [])
  }

  // ---------- Handing out levels ----------

  predicate Lacks(id: Id, level: Option<nat>) {
    id.Other? && !Truthy(level)
  }

  function AssignSubs(subs: seq<Sub>, counter: nat): (seq<Sub>, nat) {
    if subs == [] then ([], counter)
    else
      var lacks := Lacks(subs[0].id, subs[0].level);
      var first := if lacks then subs[0].(level := Some(counter + 1)) else subs[0];
      var rest := AssignSubs(subs[1..], if lacks then counter + 1 else counter);
      ([first] + rest.0, rest.1)
  }

  function Assign(course: Course, counter: nat): (Course, nat) {
    if course.subs == [] then
      if Lacks(course.id, course.level) then (course.(level := Some(counter + 1)), counter + 1)
      else (course, counter)
    else
      var r := AssignSubs(course.subs, counter);
      (course.(subs := r.0), r.1)
  }

  predicate LacksAt(subs: seq<Sub>, i: nat)
    requires i < |subs|
  {
    Lacks(subs[i].id, subs[i].level)
  }

  /** `after` keeps what `before` had and gives each leaf lacking a level one in `(low, high]`. */
  ghost predicate Numbered(before: seq<Sub>, after: seq<Sub>, low: nat, high: nat) {
    && |after| == |before| && low <= high
    && (forall i :: 0 <= i < |before| ==> after[i].id == before[i].id)
    && forall i :: 0 <= i < |before| ==>
      if LacksAt(before, i) then after[i].level.Some? && low < after[i].level.value <= high
      else after[i] == before[i]
  }

  ghost predicate Rising(before: seq<Sub>, after: seq<Sub>)
    requires |before| == |after|
  {
    forall i, j :: 0 <= i < j < |before| ==>
      LacksAt(before, i) && LacksAt(before, j) ==> after[i].level != after[j].level
  }

  lemma {:induction false} AssignSubsNumbers(subs: seq<Sub>, counter: nat)
    ensures Numbered(subs, AssignSubs(subs, counter).0, counter, AssignSubs(subs, counter).1)
    ensures Rising(subs, AssignSubs(subs, counter).0)
  {
    if subs != [] {
      var lacks := LacksAt(subs, 0);
      var next := if lacks then counter + 1 else counter;
      AssignSubsNumbers(subs[1..], next);
      NumberedStep(subs, AssignSubs(subs, counter).0, counter, next, AssignSubs(subs, counter).1);
    }
  }

  lemma NumberedStep(before: seq<Sub>, after: seq<Sub>, low: nat, mid: nat, high: nat)
    requires before != [] && |after| == |before| && low <= mid
    requires if LacksAt(before, 0) then after[0] == before[0].(level := Some(mid)) && low < mid
             else after[0] == before[0]
    requires Numbered(before[1..], after[1..], mid, high) && Rising(before[1..], after[1..])
    ensures Numbered(before, after, low, high) && Rising(before, after)
  {
    var b, a := before[1..], after[1..];
    assert forall i :: 1 <= i < |before| ==> LacksAt(before, i) == LacksAt(b, i - 1);
    assert forall i :: 1 <= i < |before| ==> before[i] == b[i - 1] && after[i] == a[i - 1];
  }

  // ---------- Who holds which level ----------

  ghost predicate SubHolds(subs: seq<Sub>, id: Id, level: nat) {
    exists i :: 0 <= i < |subs| && subs[i].id == id && subs[i].level == Some(level)
  }

  ghost predicate CourseHolds(course: Course, id: Id, level: nat) {
    || (course.id == id && course.level == Some(level))
    || SubHolds(course.subs, id, level)
  }

  ghost predicate Holds(catalog: seq<Course>, id: Id, level: nat) {
    exists i :: 0 <= i < |catalog| && CourseHolds(catalog[i], id, level)
  }

  /** No level is stored in two places of one course. */
  ghost predicate SelfApart(course: Course) {
    && (forall i :: 0 <= i < |course.subs| && course.subs[i].level.Some? ==> course.subs[i].level != course.level)
    && SubsApart(course.subs)
  }

  ghost predicate SubsApart(subs: seq<Sub>) {
    forall i, j :: 0 <= i < j < |subs| && subs[i].level.Some? ==> subs[i].level != subs[j].level
  }

  ghost predicate Apart(a: Course, b: Course) {
    forall id: Id, other: Id, level: nat :: CourseHolds(a, id, level) ==> !CourseHolds(b, other, level)
  }

  /** A stored level is above the base and at most the counter; legacy leaves store none. */
  ghost predicate Sound(id: Id, level: Option<nat>, counter: nat) {
    && (level.Some? ==> BASE < level.value <= counter)
    && (id.Legacy? ==> level.None? && id.n <= BASE)
  }

  ghost predicate CourseSound(course: Course, counter: nat) {
    && Sound(course.id, course.level, counter)
    && SelfApart(course)
    && forall i :: 0 <= i < |course.subs| ==> Sound(course.subs[i].id, course.subs[i].level, counter)
  }

  /** Some leaf of the course still lacks a level. */
  predicate Numberless(course: Course) {
    if course.subs == [] then Lacks(course.id, course.level)
    else exists i :: 0 <= i < |course.subs| && Lacks(course.subs[i].id, course.subs[i].level)
  }

  /** Two leaves of one course may only share a level if both leave it unset. */
  ghost predicate WellNumbered(catalog: seq<Course>, counter: nat) {
    && (forall i :: 0 <= i < |catalog| ==> CourseSound(catalog[i], counter))
    && forall i, j :: 0 <= i < j < |catalog| ==> Apart(catalog[i], catalog[j])
  }

  lemma HolderIsUnique(catalog: seq<Course>, counter: nat, id: Id, other: Id, level: nat)
    requires WellNumbered(catalog, counter)
    requires Holds(catalog, id, level) && Holds(catalog, other, level)
    ensures id == other
  {
    var i :| 0 <= i < |catalog| && CourseHolds(catalog[i], id, level);
    var j :| 0 <= j < |catalog| && CourseHolds(catalog[j], other, level);
    if i == j {
      CourseHolderIsUnique(catalog[i], id, other, level);
    }
  }

  lemma CourseHolderIsUnique(course: Course, id: Id, other: Id, level: nat)
    requires SelfApart(course) && CourseHolds(course, id, level) && CourseHolds(course, other, level)
    ensures id == other
  {
  }

  // ---------- What building keeps ----------

  lemma {:induction false} KnownLevelIsHeld(subs: seq<Sub>, id: Id)
    requires KnownLevel(subs, id).Some?
    ensures SubHolds(subs, id, KnownLevel(subs, id).value)
  {
    var level := KnownLevel(subs, id).value;
    if id in KnownIds(subs[1..]) {
      KnownLevelIsHeld(subs[1..], id);
      var i :| 0 <= i < |subs[1..]| && subs[1..][i].id == id && subs[1..][i].level == Some(level);
      assert subs[i + 1].id == id && subs[i + 1].level == Some(level);
    } else {
      assert subs[0].id == id && subs[0].level == Some(level);
    }
  }

  /** New ids are no known ids, and are not of the legacy form. */
  ghost predicate Minted(known: seq<Sub>, minted: seq<Id>) {
    forall i :: 0 <= i < |minted| ==> minted[i].Other? && minted[i] !in KnownIds(known)
  }

  /** No sub-module that has a level is named twice in the form. */
  ghost predicate Unrepeated(known: seq<Sub>, inputs: seq<SubInput>) {
    forall i, j :: 0 <= i < j < |inputs| && inputs[i].id.Some? && inputs[i].id == inputs[j].id ==>
      !Truthy(KnownLevel(known, inputs[i].id.value))
  }

  lemma BuiltSubHolds(known: seq<Sub>, inputs: seq<SubInput>, minted: seq<Id>, i: nat)
    requires |minted| == |inputs| && i < |inputs| && Minted(known, minted)
    requires BuildSubs(known, inputs, minted)[i].level.Some?
    ensures var built := BuildSubs(known, inputs, minted)[i];
      && inputs[i].id == Some(built.id) && built.level == KnownLevel(known, built.id) && Truthy(built.level)
      && SubHolds(known, built.id, built.level.value)
  {
    var built := BuildSubs(known, inputs, minted)[i];
    KnownLevelIsHeld(known, built.id);
    assert built.id in KnownIds(known);
    assert minted[i] !in KnownIds(known);
  }

  /** The built sub-modules have levels of their own if and only if the form repeats none that has one. */
  lemma BuiltApartIffUnrepeated(known: seq<Sub>, inputs: seq<SubInput>, minted: seq<Id>)
    requires |minted| == |inputs| && Minted(known, minted) && SubsApart(known)
    ensures SubsApart(BuildSubs(known, inputs, minted)) <==> Unrepeated(known, inputs)
  {
    var built := BuildSubs(known, inputs, minted);
    if Unrepeated(known, inputs) {
      forall i, j | 0 <= i < j < |built| && built[i].level.Some? ensures built[i].level != built[j].level {
        BuiltSubHolds(known, inputs, minted, i);
        if built[j].level.Some? {
          BuiltSubHolds(known, inputs, minted, j);
        }
      }
    } else {
      var i, j :| 0 <= i < j < |inputs| && inputs[i].id.Some? && inputs[i].id == inputs[j].id
        && Truthy(KnownLevel(known, inputs[i].id.value));
      KnownLevelIsHeld(known, inputs[i].id.value);
      assert inputs[i].id.value in KnownIds(known);
      assert built[i].level == built[j].level && built[i].level.Some?;
    }
  }

  ghost predicate NothingNew(before: Course, after: Course, counter: nat) {
    forall id: Id, level: nat :: CourseHolds(after, id, level) ==> CourseHolds(before, id, level) || level > counter
  }

  lemma BuildIsSound(existing: Course, input: Input, minted: seq<Id>, counter: nat)
    requires |minted| == |input.subs| && Minted(existing.subs, minted) && Unrepeated(existing.subs, input.subs)
    requires CourseSound(existing, counter)
    ensures CourseSound(Build(existing, input, minted), counter)
    ensures NothingNew(existing, Build(existing, input, minted), counter)
  {
    var built := BuildSubs(existing.subs, input.subs, minted);
    BuiltApartIffUnrepeated(existing.subs, input.subs, minted);
    forall i | 0 <= i < |built|
      ensures Sound(built[i].id, built[i].level, counter)
      ensures built[i].level.Some? ==>
        SubHolds(existing.subs, built[i].id, built[i].level.value) && built[i].level != existing.level
    {
      if built[i].level.Some? {
        BuiltSubHolds(existing.subs, input.subs, minted, i);
      }
    }
  }

  /** Numbering a course settles every leaf, moves no level, and stays within the counter it returns. */
  lemma AssignIsSound(course: Course, counter: nat)
    requires CourseSound(course, counter) && counter >= BASE
    ensures var r := Assign(course, counter);
      counter <= r.1 && CourseSound(r.0, r.1) && !Numberless(r.0) && NothingNew(course, r.0, counter)
    ensures forall id: Id, level: nat ::
      CourseHolds(course, id, level) ==> CourseHolds(Assign(course, counter).0, id, level)
  {
    if course.subs != [] {
      AssignSubsNumbers(course.subs, counter);
      NumberedIsSound(course, AssignSubs(course.subs, counter).0, counter, AssignSubs(course.subs, counter).1);
    }
  }

  /** Building from the form and numbering what is built settles the course, as seen from the old one. */
  lemma RebuildIsSound(existing: Course, input: Input, minted: seq<Id>, counter: nat)
    requires |minted| == |input.subs| && Minted(existing.subs, minted) && Unrepeated(existing.subs, input.subs)
    requires CourseSound(existing, counter) && counter >= BASE
    ensures var r := Assign(Build(existing, input, minted), counter);
      counter <= r.1 && CourseSound(r.0, r.1) && !Numberless(r.0) && NothingNew(existing, r.0, counter)
    ensures Assign(Build(existing, input, minted), counter).0.id == existing.id
  {
    BuildIsSound(existing, input, minted, counter);
    AssignIsSound(Build(existing, input, minted), counter);
  }

  lemma NumberedIsSound(course: Course, after: seq<Sub>, counter: nat, high: nat)
    requires CourseSound(course, counter) && counter >= BASE && course.subs != []
    requires Numbered(course.subs, after, counter, high) && Rising(course.subs, after)
    ensures var r := course.(subs := after);
      CourseSound(r, high) && !Numberless(r) && NothingNew(course, r, counter)
    ensures forall id: Id, level: nat ::
      CourseHolds(course, id, level) ==> CourseHolds(course.(subs := after), id, level)
  {
    var before := course.subs;
    forall i | 0 <= i < |after|
      ensures Sound(after[i].id, after[i].level, high) && !Lacks(after[i].id, after[i].level)
      ensures after[i].level.Some? ==> after[i].level != course.level
    {
      assert LacksAt(before, i) || after[i] == before[i];
    }
    forall i, j | 0 <= i < j < |after| && after[i].level.Some? ensures after[i].level != after[j].level {
      assert LacksAt(before, i) || after[i] == before[i];
      assert LacksAt(before, j) || after[j] == before[j];
    }
    forall id: Id, level: nat | SubHolds(before, id, level) ensures SubHolds(after, id, level) {
      var i :| 0 <= i < |before| && before[i].id == id && before[i].level == Some(level);
      assert !LacksAt(before, i) && after[i] == before[i];
    }
    forall id: Id, level: nat | SubHolds(after, id, level) ensures SubHolds(before, id, level) || level > counter {
      var i :| 0 <= i < |after| && after[i].id == id && after[i].level == Some(level);
      assert LacksAt(before, i) || after[i] == before[i];
    }
  }

  lemma ReplacedIsWellNumbered(catalog: seq<Course>, k: nat, next: Course, counter: nat, high: nat)
    requires k < |catalog| && WellNumbered(catalog, counter) && counter <= high
    requires CourseSound(next, high) && NothingNew(catalog[k], next, counter)
    ensures WellNumbered(catalog[k := next], high)
  {
    var after := catalog[k := next];
    forall i, j | 0 <= i < j < |after| ensures Apart(after[i], after[j]) {
      assert Apart(catalog[i], catalog[j]);
      NotAbove(catalog[i], counter);
      NotAbove(catalog[j], counter);
    }
  }

  lemma AppendedIsWellNumbered(catalog: seq<Course>, next: Course, counter: nat, high: nat)
    requires WellNumbered(catalog, counter) && counter <= high && CourseSound(next, high)
    requires forall id: Id, level: nat :: CourseHolds(next, id, level) ==> level > counter
    ensures WellNumbered(catalog + [next], high)
  {
    var after := catalog + [next];
    forall i, j | 0 <= i < j < |after| ensures Apart(after[i], after[j]) {
      NotAbove(after[i], counter);
    }
  }

  lemma NotAbove(course: Course, counter: nat)
    requires CourseSound(course, counter)
    ensures forall id: Id, level: nat :: CourseHolds(course, id, level) ==> BASE < level <= counter
  {
  }

  // ---------- The three edits ----------

  datatype Offering = Offering(leaf: Id, isOffered: bool)
  datatype Snapshot = Snapshot(catalog: Option<seq<Course>>, levelSeq: Option<nat>, offerings: seq<Offering>)

  datatype Refusal = BadTitle | UnknownCourse | StillOffered | HasHistory
  datatype Outcome = Done(next: Snapshot) | Refused(why: Refusal)

  const INTERNSHIP_TITLE := "کارورزی"
  const APPRENTICESHIP_TITLE := "کارآموزی"

  const DEFAULTS: seq<Course> := [
    Course(Other(0), INTERNSHIP_TITLE, Semester, true, None, [
      Sub(Legacy(Internship, 1), INTERNSHIP_TITLE + " ۱", None),
      Sub(Legacy(Internship, 2), INTERNSHIP_TITLE + " ۲", None),
      Sub(Legacy(Internship, 3), INTERNSHIP_TITLE + " ۳", None),
      Sub(Legacy(Internship, 4), INTERNSHIP_TITLE + " ۴", None)]),
    Course(Other(1), APPRENTICESHIP_TITLE, Modular, true, None, [
      Sub(Legacy(Apprenticeship, 1), APPRENTICESHIP_TITLE + " ۱", None),
      Sub(Legacy(Apprenticeship, 2), APPRENTICESHIP_TITLE + " ۲", None)])
  ]

  function CatalogOf(s: Snapshot): seq<Course> {
    if s.catalog.Some? then s.catalog.value else DEFAULTS
  }

  function LeafIds(course: Course): seq<Id> {
    if course.subs == [] then [course.id]
    else seq(|course.subs|, i requires 0 <= i < |course.subs| => course.subs[i].id)
  }

  predicate ValidInput(input: Input, others: seq<Course>) {
    && Trim(input.title) != ""
    && (forall i :: 0 <= i < |others| ==>
      others[i].audience != input.audience || Trim(others[i].title) != Trim(input.title))
    && (forall i :: 0 <= i < |input.subs| ==> Trim(input.subs[i].title) != "")
    && (forall i, j :: 0 <= i < j < |input.subs| ==> Trim(input.subs[i].title) != Trim(input.subs[j].title))
  }

  /** The first course with the id, or the length of the list. */
  function IndexOf(catalog: seq<Course>, id: Id): (k: nat)
    ensures k <= |catalog|
    ensures k < |catalog| ==> catalog[k].id == id
    ensures forall i :: 0 <= i < k ==> catalog[i].id != id
  {
    if catalog == [] || catalog[0].id == id then 0 else 1 + IndexOf(catalog[1..], id)
  }

  function Others(catalog: seq<Course>, id: Id): (rest: seq<Course>)
    ensures forall c :: c in rest <==> c in catalog && c.id != id
  {
    if catalog == [] then []
    else (if catalog[0].id == id then [] else [catalog[0]]) + Others(catalog[1..], id)
  }

  function Stamped(levelSeq: Option<nat>, counter: nat): Option<nat> {
    if counter == Counter(levelSeq) then levelSeq else Some(counter)
  }

  function Create(s: Snapshot, input: Input, id: Id, minted: seq<Id>): Outcome
    requires |minted| == |input.subs|
  {
    if !ValidInput(input, CatalogOf(s)) then Refused(BadTitle)
    else
      var r := Assign(Build(Blank(id), input, minted), Counter(s.levelSeq));
      Done(s.(catalog := Some(CatalogOf(s) + [r.0]), levelSeq := Stamped(s.levelSeq, r.1)))
  }

  /** Leaves that the edit takes away from where they can be offered. */
  predicate Dropped(existing: Course, next: Course, leaf: Id) {
    && leaf in LeafIds(existing)
    && (next.audience != existing.audience || !next.isActive || leaf !in LeafIds(next))
  }

  function Update(s: Snapshot, id: Id, input: Input, minted: seq<Id>): Outcome
    requires |minted| == |input.subs|
  {
    var catalog := CatalogOf(s);
    var k := IndexOf(catalog, id);
    if k == |catalog| then Refused(UnknownCourse)
    else if !ValidInput(input, Others(catalog, id)) then Refused(BadTitle)
    else
      var r := Assign(Build(catalog[k], input, minted), Counter(s.levelSeq));
      if exists i :: 0 <= i < |s.offerings| && s.offerings[i].isOffered && Dropped(catalog[k], r.0, s.offerings[i].leaf)
      then Refused(StillOffered)
      else Done(s.(catalog := Some(catalog[k := r.0]), levelSeq := Stamped(s.levelSeq, r.1)))
  }

  function Delete(s: Snapshot, id: Id): Outcome {
    var catalog := CatalogOf(s);
    var k := IndexOf(catalog, id);
    if k == |catalog| then Refused(UnknownCourse)
    else if exists i :: 0 <= i < |s.offerings| && s.offerings[i].leaf in LeafIds(catalog[k]) then Refused(HasHistory)
    else Done(s.(catalog := Some(Others(catalog, id))))
  }

  // ---------- Runs ----------

  datatype Event =
    | Creating(input: Input, id: Id, minted: seq<Id>)
    | Updating(target: Id, input: Input, minted: seq<Id>)
    | Deleting(target: Id)
    | OfferingsSet(offerings: seq<Offering>)

  /** The ids made for the event are new, and its form repeats no sub-module that has a level. */
  ghost predicate Fair(s: Snapshot, e: Event) {
    match e
    case Creating(input, id, minted) =>
      && |minted| == |input.subs| && id.Other? && Minted([], minted)
      && IndexOf(CatalogOf(s), id) == |CatalogOf(s)|
    case Updating(target, input, minted) =>
      var k := IndexOf(CatalogOf(s), target);
      |minted| == |input.subs| &&
      (k < |CatalogOf(s)| ==>
        Minted(CatalogOf(s)[k].subs, minted) && Unrepeated(CatalogOf(s)[k].subs, input.subs))
    case Deleting(_) => true
    case OfferingsSet(_) => true
  }

  /** A refused edit throws, and the draft it worked on is dropped. */
  function Kept(s: Snapshot, r: Outcome): Snapshot {
    if r.Done? then r.next else s
  }

  function Next(s: Snapshot, e: Event): Snapshot
    requires Fair(s, e)
  {
    match e
    case Creating(input, id, minted) => Kept(s, Create(s, input, id, minted))
    case Updating(target, input, minted) => Kept(s, Update(s, target, input, minted))
    case Deleting(target) => Kept(s, Delete(s, target))
    case OfferingsSet(offerings) => s.(offerings := offerings)
  }

  ghost predicate Inv(s: Snapshot) {
    && WellNumbered(CatalogOf(s), Counter(s.levelSeq))
    && forall i :: 0 <= i < |CatalogOf(s)| ==> !Numberless(CatalogOf(s)[i])
  }

  /** Every level stored after the step was stored before, with the same id, or is above the old counter. */
  ghost predicate OnlyHigher(before: Snapshot, after: Snapshot) {
    && Counter(before.levelSeq) <= Counter(after.levelSeq)
    && forall id: Id, level: nat :: Holds(CatalogOf(after), id, level) ==>
      Holds(CatalogOf(before), id, level) || level > Counter(before.levelSeq)
  }

  lemma CreateKeepsInv(s: Snapshot, input: Input, id: Id, minted: seq<Id>)
    requires Inv(s) && Fair(s, Creating(input, id, minted))
    ensures Inv(Kept(s, Create(s, input, id, minted))) && OnlyHigher(s, Kept(s, Create(s, input, id, minted)))
  {
    var counter := Counter(s.levelSeq);
    var blank := Blank(id);
    RebuildIsSound(blank, input, minted, counter);
    var r := Assign(Build(blank, input, minted), counter);
    assert forall other: Id, level: nat :: !CourseHolds(blank, other, level);
    AppendedIsWellNumbered(CatalogOf(s), r.0, counter, r.1);
  }

  lemma UpdateKeepsInv(s: Snapshot, target: Id, input: Input, minted: seq<Id>)
    requires Inv(s) && Fair(s, Updating(target, input, minted))
    ensures Inv(Kept(s, Update(s, target, input, minted))) && OnlyHigher(s, Kept(s, Update(s, target, input, minted)))
  {
    var catalog := CatalogOf(s);
    var k := IndexOf(catalog, target);
    if Update(s, target, input, minted).Done? {
      var counter := Counter(s.levelSeq);
      RebuildIsSound(catalog[k], input, minted, counter);
      var r := Assign(Build(catalog[k], input, minted), counter);
      ReplacedIsWellNumbered(catalog, k, r.0, counter, r.1);
    }
  }

  lemma TailIsWellNumbered(catalog: seq<Course>, counter: nat)
    requires catalog != [] && WellNumbered(catalog, counter)
    ensures WellNumbered(catalog[1..], counter)
    ensures forall c :: c in catalog[1..] ==> Apart(catalog[0], c)
  {
    var tail := catalog[1..];
    forall i, j | 0 <= i < j < |tail| ensures Apart(tail[i], tail[j]) {
      assert tail[i] == catalog[i + 1] && tail[j] == catalog[j + 1];
    }
  }

  lemma PrependedIsWellNumbered(first: Course, rest: seq<Course>, counter: nat)
    requires WellNumbered(rest, counter) && CourseSound(first, counter)
    requires forall c :: c in rest ==> Apart(first, c)
    ensures WellNumbered([first] + rest, counter)
  {
    var all := [first] + rest;
    forall i, j | 0 <= i < j < |all| ensures Apart(all[i], all[j]) {
      assert all[j] == rest[j - 1];
      assert i > 0 ==> all[i] == rest[i - 1];
    }
  }

  lemma {:induction false} OthersAreWellNumbered(catalog: seq<Course>, id: Id, counter: nat)
    requires WellNumbered(catalog, counter)
    ensures WellNumbered(Others(catalog, id), counter)
  {
    if catalog != [] {
      TailIsWellNumbered(catalog, counter);
      OthersAreWellNumbered(catalog[1..], id, counter);
      if catalog[0].id != id {
        PrependedIsWellNumbered(catalog[0], Others(catalog[1..], id), counter);
      }
    }
  }

  lemma DeleteKeepsInv(s: Snapshot, target: Id)
    requires Inv(s)
    ensures Inv(Kept(s, Delete(s, target))) && OnlyHigher(s, Kept(s, Delete(s, target)))
  {
    OthersAreWellNumbered(CatalogOf(s), target, Counter(s.levelSeq));
    var rest := Others(CatalogOf(s), target);
    forall i | 0 <= i < |rest| ensures !Numberless(rest[i]) && rest[i] in CatalogOf(s) {
      assert rest[i] in rest;
    }
  }

  lemma StepKeepsInv(s: Snapshot, e: Event)
    requires Inv(s) && Fair(s, e)
    ensures Inv(Next(s, e)) && OnlyHigher(s, Next(s, e))
  {
    match e
    case Creating(input, id, minted) => CreateKeepsInv(s, input, id, minted);
    case Updating(target, input, minted) => UpdateKeepsInv(s, target, input, minted);
    case Deleting(target) => DeleteKeepsInv(s, target);
    case OfferingsSet(_) =>
  }

  ghost predicate FairRun(init: Snapshot, es: seq<Event>)
    decreases |es|, 0
  {
    es == [] ||
    (FairRun(init, es[..|es| - 1]) && Fair(Run(init, es[..|es| - 1]), es[|es| - 1]))
  }

  ghost function Run(init: Snapshot, es: seq<Event>): Snapshot
    requires FairRun(init, es)
    decreases |es|, 1
  {
    if es == [] then init else Next(Run(init, es[..|es| - 1]), es[|es| - 1])
  }

  lemma {:induction false} PrefixIsFair(init: Snapshot, es: seq<Event>, n: nat)
    requires FairRun(init, es) && n <= |es|
    ensures FairRun(init, es[..n])
    decreases |es|
  {
    if n < |es| {
      PrefixIsFair(init, es[..|es| - 1], n);
      PrefixOfPrefix(es, |es| - 1, n);
    } else {
      assert es[..n] == es;
    }
  }

  lemma {:induction false} RunKeepsInv(init: Snapshot, es: seq<Event>)
    requires Inv(init) && FairRun(init, es)
    ensures Inv(Run(init, es))
    decreases |es|
  {
    if es != [] {
      RunKeepsInv(init, es[..|es| - 1]);
      StepKeepsInv(Run(init, es[..|es| - 1]), es[|es| - 1]);
    }
  }

  lemma OnlyHigherIsTransitive(a: Snapshot, b: Snapshot, c: Snapshot)
    requires OnlyHigher(a, b) && OnlyHigher(b, c)
    ensures OnlyHigher(a, c)
  {
  }

  lemma {:induction false} RunOnlyGoesHigher(init: Snapshot, es: seq<Event>, n: nat)
    requires Inv(init) && FairRun(init, es) && n <= |es| && FairRun(init, es[..n])
    ensures OnlyHigher(Run(init, es[..n]), Run(init, es))
    decreases |es|
  {
    if n < |es| {
      var before := es[..|es| - 1];
      PrefixOfPrefix(es, |es| - 1, n);
      RunKeepsInv(init, before);
      StepKeepsInv(Run(init, before), es[|es| - 1]);
      RunOnlyGoesHigher(init, before, n);
      OnlyHigherIsTransitive(Run(init, es[..n]), Run(init, before), Run(init, es));
    } else {
      assert es[..n] == es;
    }
  }

  lemma HeldIsCounted(s: Snapshot, id: Id, level: nat)
    requires Inv(s) && Holds(CatalogOf(s), id, level)
    ensures BASE < level <= Counter(s.levelSeq)
  {
    var i :| 0 <= i < |CatalogOf(s)| && CourseHolds(CatalogOf(s)[i], id, level);
    NotAbove(CatalogOf(s)[i], Counter(s.levelSeq));
  }

  /** Over a whole run a level belongs to one id: whoever holds it later held it already. */
  lemma LevelBelongsToOneId(init: Snapshot, es: seq<Event>, n: nat, id: Id, other: Id, level: nat)
    requires Inv(init) && FairRun(init, es) && n <= |es| && FairRun(init, es[..n])
    requires Holds(CatalogOf(Run(init, es[..n])), id, level) && Holds(CatalogOf(Run(init, es)), other, level)
    ensures id == other
  {
    RunKeepsInv(init, es[..n]);
    HeldIsCounted(Run(init, es[..n]), id, level);
    RunOnlyGoesHigher(init, es, n);
    HolderIsUnique(CatalogOf(Run(init, es[..n])), Counter(Run(init, es[..n]).levelSeq), id, other, level);
  }

  /** A level that was given out and then disappeared is never given out again. */
  lemma GoneIsGone(init: Snapshot, es: seq<Event>, n: nat, m: nat, id: Id, level: nat)
    requires Inv(init) && FairRun(init, es) && n <= m <= |es| && FairRun(init, es[..m]) && FairRun(init, es[..n])
    requires Holds(CatalogOf(Run(init, es[..n])), id, level)
    requires forall other :: !Holds(CatalogOf(Run(init, es[..m])), other, level)
    ensures forall other :: !Holds(CatalogOf(Run(init, es)), other, level)
  {
    RunKeepsInv(init, es[..n]);
    HeldIsCounted(Run(init, es[..n]), id, level);
    PrefixOfPrefix(es, m, n);
    RunOnlyGoesHigher(init, es[..m], n);
    RunOnlyGoesHigher(init, es, m);
  }

  /** A sub-module that keeps its id keeps its level, whatever else the form changes. */
  lemma KeptIdKeepsLevel(s: Snapshot, target: Id, input: Input, minted: seq<Id>, i: nat, level: nat)
    requires Inv(s) && Fair(s, Updating(target, input, minted)) && Update(s, target, input, minted).Done?
    requires i < |input.subs| && input.subs[i].id.Some?
    requires KnownLevel(CatalogOf(s)[IndexOf(CatalogOf(s), target)].subs, input.subs[i].id.value) == Some(level)
    ensures var course := CatalogOf(Update(s, target, input, minted).next)[IndexOf(CatalogOf(s), target)];
      && i < |course.subs|
      && course.subs[i] == Sub(input.subs[i].id.value, Trim(input.subs[i].title), Some(level))
  {
    var existing := CatalogOf(s)[IndexOf(CatalogOf(s), target)];
    var id := input.subs[i].id.value;
    KnownLevelIsHeld(existing.subs, id);
    assert id in KnownIds(existing.subs);
    NotAbove(existing, Counter(s.levelSeq));
    assert CourseHolds(existing, id, level);
    var built := Build(existing, input, minted);
    AssignSubsNumbers(built.subs, Counter(s.levelSeq));
    assert !LacksAt(built.subs, i);
  }

  // ---------- Looking a level up ----------

  datatype Leaf = Leaf(id: Id, title: string, group: Option<string>, level: nat)

  function EnrollmentLevelOfLeaf(id: Id, stored: Option<nat>): Option<nat> {
    if id.Legacy? then Some(id.n) else stored
  }

  function LeafOf(id: Id, title: string, group: Option<string>, stored: Option<nat>): seq<Leaf> {
    var level := EnrollmentLevelOfLeaf(id, stored);
    if level.None? then [] else [Leaf(id, title, group, level.value)]
  }

  function SubLeaves(subs: seq<Sub>, group: string): seq<Leaf> {
    if subs == [] then []
    else LeafOf(subs[0].id, subs[0].title, Some(group), subs[0].level) + SubLeaves(subs[1..], group)
  }

  function EnrollmentLeavesOf(course: Course): seq<Leaf> {
    if course.subs == [] then LeafOf(course.id, course.title, None, course.level)
    else SubLeaves(course.subs, course.title)
  }

  function WithLevel(leaves: seq<Leaf>, level: nat): Option<Leaf> {
    if leaves == [] then None
    else if leaves[0].level == level then Some(leaves[0])
    else WithLevel(leaves[1..], level)
  }

  function FindLeaf(catalog: seq<Course>, audience: Audience, level: nat): Option<Leaf> {
    if catalog == [] then None
    else
      var match0 :=
        if catalog[0].isActive && catalog[0].audience == audience then WithLevel(EnrollmentLeavesOf(catalog[0]), level)
        else None;
      if match0.Some? then match0 else FindLeaf(catalog[1..], audience, level)
  }

  function LeafIdForLevel(catalog: seq<Course>, kind: Kind, level: nat): Id {
    var leaf := FindLeaf(catalog, if kind.Apprenticeship? then Modular else Semester, level);
    if leaf.Some? then leaf.value.id else Legacy(kind, level)
  }

  predicate IsLeafOf(sub: Sub, leaf: Leaf) {
    sub.id == leaf.id && EnrollmentLevelOfLeaf(sub.id, sub.level) == Some(leaf.level)
  }

  lemma {:induction false} SubLeavesHold(subs: seq<Sub>, group: string, leaf: Leaf)
    requires leaf in SubLeaves(subs, group)
    ensures exists i :: 0 <= i < |subs| && IsLeafOf(subs[i], leaf)
  {
    if leaf !in LeafOf(subs[0].id, subs[0].title, Some(group), subs[0].level) {
      SubLeavesHold(subs[1..], group, leaf);
      var i :| 0 <= i < |subs[1..]| && IsLeafOf(subs[1..][i], leaf);
      assert IsLeafOf(subs[i + 1], leaf);
    } else {
      assert IsLeafOf(subs[0], leaf);
    }
  }

  /** A leaf whose level is a dynamic one holds it. */
  lemma DynamicLeafHolds(course: Course, counter: nat, leaf: Leaf)
    requires CourseSound(course, counter) && leaf in EnrollmentLeavesOf(course) && leaf.level > BASE
    ensures CourseHolds(course, leaf.id, leaf.level)
  {
    if course.subs != [] {
      SubLeavesHold(course.subs, course.title, leaf);
    }
  }

  lemma {:induction false} WithLevelFinds(leaves: seq<Leaf>, leaf: Leaf)
    requires leaf in leaves
    ensures WithLevel(leaves, leaf.level).Some?
    ensures WithLevel(leaves, leaf.level).value in leaves && WithLevel(leaves, leaf.level).value.level == leaf.level
  {
    if leaves[0].level != leaf.level {
      WithLevelFinds(leaves[1..], leaf);
    }
  }

  lemma {:induction false} WithLevelIsThere(leaves: seq<Leaf>, level: nat)
    requires WithLevel(leaves, level).Some?
    ensures WithLevel(leaves, level).value in leaves && WithLevel(leaves, level).value.level == level
  {
    if leaves[0].level != level {
      WithLevelIsThere(leaves[1..], level);
    }
  }

  ghost predicate Enrols(course: Course, audience: Audience, leaf: Leaf) {
    course.isActive && course.audience == audience && leaf in EnrollmentLeavesOf(course)
  }

  lemma {:induction false} FindLeafIsThere(catalog: seq<Course>, audience: Audience, level: nat)
    requires FindLeaf(catalog, audience, level).Some?
    ensures var leaf := FindLeaf(catalog, audience, level).value;
      leaf.level == level && exists i :: 0 <= i < |catalog| && Enrols(catalog[i], audience, leaf)
  {
    var leaf := FindLeaf(catalog, audience, level).value;
    if && catalog[0].isActive && catalog[0].audience == audience
       && WithLevel(EnrollmentLeavesOf(catalog[0]), level).Some? {
      WithLevelIsThere(EnrollmentLeavesOf(catalog[0]), level);
      assert Enrols(catalog[0], audience, leaf);
    } else {
      FindLeafIsThere(catalog[1..], audience, level);
      var i :| 0 <= i < |catalog[1..]| && Enrols(catalog[1..][i], audience, leaf);
      assert Enrols(catalog[i + 1], audience, leaf);
    }
  }

  lemma {:induction false} FindLeafFinds(catalog: seq<Course>, audience: Audience, k: nat, leaf: Leaf)
    requires k < |catalog| && Enrols(catalog[k], audience, leaf)
    ensures FindLeaf(catalog, audience, leaf.level).Some?
  {
    if k == 0 {
      WithLevelFinds(EnrollmentLeavesOf(catalog[0]), leaf);
    } else {
      FindLeafFinds(catalog[1..], audience, k - 1, leaf);
    }
  }

  /** In every catalogue the runs reach, a dynamic level leads to the one leaf that holds it. */
  lemma LookupReturnsTheHolder(s: Snapshot, audience: Audience, k: nat, leaf: Leaf)
    requires Inv(s) && k < |CatalogOf(s)| && Enrols(CatalogOf(s)[k], audience, leaf) && leaf.level > BASE
    ensures var found := FindLeaf(CatalogOf(s), audience, leaf.level);
      found.Some? && found.value.id == leaf.id && found.value.level == leaf.level
  {
    var catalog := CatalogOf(s);
    FindLeafFinds(catalog, audience, k, leaf);
    FindLeafIsThere(catalog, audience, leaf.level);
    var found := FindLeaf(catalog, audience, leaf.level).value;
    var i :| 0 <= i < |catalog| && Enrols(catalog[i], audience, found);
    DynamicLeafHolds(catalog[i], Counter(s.levelSeq), found);
    DynamicLeafHolds(catalog[k], Counter(s.levelSeq), leaf);
    HolderIsUnique(catalog, Counter(s.levelSeq), found.id, leaf.id, leaf.level);
  }

  /** The id for a level of a course kind is that of the leaf that holds the level. */
  lemma IdForLevelIsTheHolders(s: Snapshot, audience: Audience, k: nat, leaf: Leaf)
    requires Inv(s) && k < |CatalogOf(s)| && Enrols(CatalogOf(s)[k], audience, leaf) && leaf.level > BASE
    ensures LeafIdForLevel(CatalogOf(s), KindFor(audience), leaf.level) == leaf.id
  {
    LookupReturnsTheHolder(s, audience, k, leaf);
  }

  /** A dynamic level that no active leaf of the audience holds is not found, whoever held it before. */
  lemma LookupNeverInvents(s: Snapshot, audience: Audience, level: nat)
    requires Inv(s) && level > BASE && FindLeaf(CatalogOf(s), audience, level).Some?
    ensures Holds(CatalogOf(s), FindLeaf(CatalogOf(s), audience, level).value.id, level)
  {
    FindLeafIsThere(CatalogOf(s), audience, level);
    var found := FindLeaf(CatalogOf(s), audience, level).value;
    var i :| 0 <= i < |CatalogOf(s)| && Enrols(CatalogOf(s)[i], audience, found);
    DynamicLeafHolds(CatalogOf(s)[i], Counter(s.levelSeq), found);
  }

  // ---------- What can be offered ----------

  datatype Item = Item(id: Id, title: string, kind: Kind, group: Option<(Id, string)>)

  function KindFor(audience: Audience): Kind {
    if audience.Modular? then Apprenticeship else Internship
  }

  function SubItems(subs: seq<Sub>, kind: Kind, group: (Id, string)): seq<Item> {
    if subs == [] then [] else [Item(subs[0].id, subs[0].title, kind, Some(group))] + SubItems(subs[1..], kind, group)
  }

  function ItemsOf(course: Course, audience: Audience): seq<Item> {
    if !course.isActive || course.audience != audience then []
    else if course.subs == [] then [Item(course.id, course.title, KindFor(audience), None)]
    else SubItems(course.subs, KindFor(audience), (course.id, course.title))
  }

  function Flattened(catalog: seq<Course>, audience: Audience): seq<Item> {
    if catalog == [] then [] else ItemsOf(catalog[0], audience) + Flattened(catalog[1..], audience)
  }

  ghost predicate Lists(course: Course, audience: Audience, leaf: Id) {
    course.isActive && course.audience == audience && leaf in LeafIds(course)
  }

  ghost predicate Offerable(catalog: seq<Course>, audience: Audience, leaf: Id) {
    exists i :: 0 <= i < |catalog| && Lists(catalog[i], audience, leaf)
  }

  ghost predicate DistinctIds(catalog: seq<Course>) {
    forall i, j :: 0 <= i < j < |catalog| ==> catalog[i].id != catalog[j].id
  }

  /** Course ids stay distinct in every run, new ids being new. */
  lemma StepKeepsIds(s: Snapshot, e: Event)
    requires Fair(s, e) && DistinctIds(CatalogOf(s))
    ensures DistinctIds(CatalogOf(Next(s, e)))
  {
    match e
    case Creating(input, id, minted) => RebuildKeepsId(Blank(id), input, minted, Counter(s.levelSeq));
    case Updating(target, input, minted) => UpdateKeepsIds(s, target, input, minted);
    case Deleting(target) => OthersAreDistinct(CatalogOf(s), target);
    case OfferingsSet(_) =>
  }

  lemma UpdateKeepsIds(s: Snapshot, target: Id, input: Input, minted: seq<Id>)
    requires |minted| == |input.subs| && DistinctIds(CatalogOf(s))
    ensures DistinctIds(CatalogOf(Kept(s, Update(s, target, input, minted))))
  {
    var before := CatalogOf(s);
    var k := IndexOf(before, target);
    if k < |before| {
      RebuildKeepsId(before[k], input, minted, Counter(s.levelSeq));
    }
  }

  lemma RebuildKeepsId(existing: Course, input: Input, minted: seq<Id>, counter: nat)
    requires |minted| == |input.subs|
    ensures Assign(Build(existing, input, minted), counter).0.id == existing.id
  {
  }

  lemma {:induction false} OthersAreDistinct(catalog: seq<Course>, id: Id)
    requires DistinctIds(catalog)
    ensures DistinctIds(Others(catalog, id))
  {
    if catalog != [] {
      var rest := Others(catalog[1..], id);
      OthersAreDistinct(catalog[1..], id);
      forall j | 0 <= j < |rest| ensures rest[j].id != catalog[0].id {
        assert rest[j] in rest;
        var i :| 0 <= i < |catalog[1..]| && catalog[1..][i] == rest[j];
        assert catalog[i + 1] == rest[j];
      }
    }
  }

  lemma {:induction false} SubItemIds(subs: seq<Sub>, kind: Kind, group: (Id, string))
    ensures |SubItems(subs, kind, group)| == |subs|
    ensures forall i :: 0 <= i < |subs| ==> SubItems(subs, kind, group)[i].id == subs[i].id
  {
    if subs != [] {
      SubItemIds(subs[1..], kind, group);
    }
  }

  lemma CourseItemIds(course: Course, audience: Audience, leaf: Id)
    ensures (exists item :: item in ItemsOf(course, audience) && item.id == leaf) <==> Lists(course, audience, leaf)
  {
    SubItemIds(course.subs, KindFor(audience), (course.id, course.title));
    forall item | item in ItemsOf(course, audience) ensures item.id in LeafIds(course) {
      var i :| 0 <= i < |ItemsOf(course, audience)| && ItemsOf(course, audience)[i] == item;
      assert LeafIds(course)[i] == item.id;
    }
    if Lists(course, audience, leaf) {
      var i :| 0 <= i < |LeafIds(course)| && LeafIds(course)[i] == leaf;
      assert ItemsOf(course, audience)[i].id == leaf;
    }
  }

  /** The flat list names exactly the leaves of the audience's active courses. */
  lemma {:induction false} FlattenedIds(catalog: seq<Course>, audience: Audience, leaf: Id)
    ensures (exists item :: item in Flattened(catalog, audience) && item.id == leaf)
      <==> Offerable(catalog, audience, leaf)
  {
    if catalog != [] {
      CourseItemIds(catalog[0], audience, leaf);
      FlattenedIds(catalog[1..], audience, leaf);
      OfferableStep(catalog, audience, leaf);
    }
  }

  lemma OfferableStep(catalog: seq<Course>, audience: Audience, leaf: Id)
    requires catalog != []
    ensures Offerable(catalog, audience, leaf)
      <==> Lists(catalog[0], audience, leaf) || Offerable(catalog[1..], audience, leaf)
  {
    if Offerable(catalog[1..], audience, leaf) {
      var i :| 0 <= i < |catalog[1..]| && Lists(catalog[1..][i], audience, leaf);
      assert Lists(catalog[i + 1], audience, leaf);
    }
    if Offerable(catalog, audience, leaf) && !Lists(catalog[0], audience, leaf) {
      var i :| 0 <= i < |catalog| && Lists(catalog[i], audience, leaf);
      assert catalog[1..][i - 1] == catalog[i];
    }
  }

  /** No edit that goes through takes an offered leaf out of the list it is offered from. */
  lemma OfferedLeafStays(s: Snapshot, e: Event, audience: Audience, k: nat)
    requires Fair(s, e) && !e.OfferingsSet? && DistinctIds(CatalogOf(s))
    requires k < |s.offerings| && s.offerings[k].isOffered
    requires Offerable(CatalogOf(s), audience, s.offerings[k].leaf)
    ensures Offerable(CatalogOf(Next(s, e)), audience, s.offerings[k].leaf)
  {
    var before, leaf := CatalogOf(s), s.offerings[k].leaf;
    var i :| 0 <= i < |before| && Lists(before[i], audience, leaf);
    match e
    case Creating(_, _, _) => assert CatalogOf(Next(s, e))[i] == before[i];
    case Updating(target, input, minted) => UpdateKeepsOffered(s, target, input, minted, audience, k, i);
    case Deleting(target) => DeleteKeepsOffered(s, target, audience, k, i);
  }

  lemma UpdateKeepsOffered(
    s: Snapshot, target: Id, input: Input, minted: seq<Id>, audience: Audience, k: nat, i: nat)
    requires |minted| == |input.subs| && k < |s.offerings| && s.offerings[k].isOffered
    requires i < |CatalogOf(s)| && Lists(CatalogOf(s)[i], audience, s.offerings[k].leaf)
    ensures Offerable(CatalogOf(Kept(s, Update(s, target, input, minted))), audience, s.offerings[k].leaf)
  {
    var before, leaf := CatalogOf(s), s.offerings[k].leaf;
    var r := Update(s, target, input, minted);
    if r.Done? {
      var t, after := IndexOf(before, target), CatalogOf(r.next);
      assert !Dropped(before[t], after[t], leaf);
      assert Lists(after[i], audience, leaf);
    }
  }

  lemma DeleteKeepsOffered(s: Snapshot, target: Id, audience: Audience, k: nat, i: nat)
    requires DistinctIds(CatalogOf(s)) && k < |s.offerings|
    requires i < |CatalogOf(s)| && Lists(CatalogOf(s)[i], audience, s.offerings[k].leaf)
    ensures Offerable(CatalogOf(Kept(s, Delete(s, target))), audience, s.offerings[k].leaf)
  {
    var before := CatalogOf(s);
    var r := Delete(s, target);
    if r.Done? {
      assert s.offerings[k].leaf !in LeafIds(before[IndexOf(before, target)]);
      assert before[i] in CatalogOf(r.next);
    }
  }

  // ---------- Titles ----------

  /** Within an audience no two courses have the same title, once trimmed. */
  ghost predicate TitlesApart(catalog: seq<Course>) {
    forall i, j :: 0 <= i < j < |catalog| && catalog[i].audience == catalog[j].audience ==>
      Trim(catalog[i].title) != Trim(catalog[j].title)
  }

  lemma RebuildTrimsTitle(existing: Course, input: Input, minted: seq<Id>, counter: nat)
    requires |minted| == |input.subs|
    ensures var course := Assign(Build(existing, input, minted), counter).0;
      Trim(course.title) == Trim(input.title) && course.audience == input.audience
  {
    TrimIsTrimmed(input.title);
  }

  lemma CreateKeepsTitles(s: Snapshot, input: Input, id: Id, minted: seq<Id>)
    requires |minted| == |input.subs| && TitlesApart(CatalogOf(s))
    ensures TitlesApart(CatalogOf(Kept(s, Create(s, input, id, minted))))
  {
    var r := Create(s, input, id, minted);
    if r.Done? {
      var next := Assign(Build(Blank(id), input, minted), Counter(s.levelSeq)).0;
      RebuildTrimsTitle(Blank(id), input, minted, Counter(s.levelSeq));
      AppendedTitleApart(CatalogOf(s), input, next);
    }
  }

  lemma AppendedTitleApart(catalog: seq<Course>, input: Input, next: Course)
    requires TitlesApart(catalog) && ValidInput(input, catalog)
    requires Trim(next.title) == Trim(input.title) && next.audience == input.audience
    ensures TitlesApart(catalog + [next])
  {
  }

  lemma UpdateKeepsTitles(s: Snapshot, target: Id, input: Input, minted: seq<Id>)
    requires |minted| == |input.subs| && TitlesApart(CatalogOf(s)) && DistinctIds(CatalogOf(s))
    ensures TitlesApart(CatalogOf(Kept(s, Update(s, target, input, minted))))
  {
    var before := CatalogOf(s);
    var r := Update(s, target, input, minted);
    if r.Done? {
      var k := IndexOf(before, target);
      RebuildTrimsTitle(before[k], input, minted, Counter(s.levelSeq));
      ReplacedTitleApart(before, k, input, CatalogOf(r.next)[k]);
    }
  }

  lemma ReplacedTitleApart(catalog: seq<Course>, k: nat, input: Input, next: Course)
    requires k < |catalog| && TitlesApart(catalog) && DistinctIds(catalog)
    requires ValidInput(input, Others(catalog, catalog[k].id))
    requires Trim(next.title) == Trim(input.title) && next.audience == input.audience
    ensures TitlesApart(catalog[k := next])
  {
    forall i | 0 <= i < |catalog| && i != k && catalog[i].audience == input.audience
      ensures Trim(catalog[i].title) != Trim(input.title)
    {
      assert catalog[i] in Others(catalog, catalog[k].id);
    }
  }

  lemma {:induction false} OthersKeepTitles(catalog: seq<Course>, id: Id)
    requires TitlesApart(catalog)
    ensures TitlesApart(Others(catalog, id))
  {
    if catalog != [] {
      var tail, rest := catalog[1..], Others(catalog[1..], id);
      assert forall i :: 0 <= i < |tail| ==> tail[i] == catalog[i + 1];
      OthersKeepTitles(tail, id);
      forall j | 0 <= j < |rest| && rest[j].audience == catalog[0].audience
        ensures Trim(rest[j].title) != Trim(catalog[0].title)
      {
        assert rest[j] in rest;
        var i :| 0 <= i < |tail| && tail[i] == rest[j];
      }
    }
  }

  /** No run of edits ever gives two courses of an audience one title. */
  lemma StepKeepsTitles(s: Snapshot, e: Event)
    requires Fair(s, e) && TitlesApart(CatalogOf(s)) && DistinctIds(CatalogOf(s))
    ensures TitlesApart(CatalogOf(Next(s, e)))
  {
    match e
    case Creating(input, id, minted) => CreateKeepsTitles(s, input, id, minted);
    case Updating(target, input, minted) => UpdateKeepsTitles(s, target, input, minted);
    case Deleting(target) => OthersKeepTitles(CatalogOf(s), target);
    case OfferingsSet(_) =>
  }

  // ---------- Where runs start ----------

  lemma DefaultsAreSound(levelSeq: Option<nat>)
    ensures WellNumbered(DEFAULTS, Counter(levelSeq)) && DistinctIds(DEFAULTS)
    ensures forall i :: 0 <= i < |DEFAULTS| ==> !Numberless(DEFAULTS[i])
  {
    NoLevelYet(DEFAULTS[0], Counter(levelSeq));
    NoLevelYet(DEFAULTS[1], Counter(levelSeq));
  }

  /** A course none of whose leaves stores a level, all of them legacy ones. */
  lemma NoLevelYet(course: Course, counter: nat)
    requires course.id.Other? && course.level.None? && course.subs != []
    requires forall i :: 0 <= i < |course.subs| ==>
      course.subs[i].level.None? && course.subs[i].id.Legacy? && course.subs[i].id.n <= BASE
    ensures CourseSound(course, counter) && !Numberless(course)
    ensures forall id: Id, level: nat :: !CourseHolds(course, id, level)
  {
  }

  /** Loading numbers the stored courses one after another. */
  function AssignAll(catalog: seq<Course>, counter: nat): (seq<Course>, nat) {
    if catalog == [] then ([], counter)
    else
      var first := Assign(catalog[0], counter);
      var rest := AssignAll(catalog[1..], first.1);
      ([first.0] + rest.0, rest.1)
  }

  lemma CountedHigher(catalog: seq<Course>, low: nat, high: nat)
    requires WellNumbered(catalog, low) && low <= high
    ensures WellNumbered(catalog, high)
  {
  }

  /** Loading an older snapshot settles every leaf and moves no level that was stored. */
  lemma {:induction false} LoadingSettles(catalog: seq<Course>, counter: nat)
    requires WellNumbered(catalog, counter) && counter >= BASE
    ensures var r := AssignAll(catalog, counter);
      && counter <= r.1 && |r.0| == |catalog| && WellNumbered(r.0, r.1)
      && (forall i :: 0 <= i < |r.0| ==> !Numberless(r.0[i]))
      && forall i :: 0 <= i < |r.0| ==> NothingNew(catalog[i], r.0[i], counter)
  {
    if catalog != [] {
      var first := Assign(catalog[0], counter);
      AssignIsSound(catalog[0], counter);
      TailIsWellNumbered(catalog, counter);
      CountedHigher(catalog[1..], counter, first.1);
      LoadingSettles(catalog[1..], first.1);
      var rest := AssignAll(catalog[1..], first.1);
      forall i | 0 <= i < |rest.0| ensures Apart(first.0, rest.0[i]) && NothingNew(catalog[i + 1], rest.0[i], counter) {
        assert catalog[1..][i] == catalog[i + 1];
        assert Apart(catalog[0], catalog[i + 1]);
        NotAbove(first.0, first.1);
        NotAbove(catalog[i + 1], counter);
      }
      CourseCountedHigher(first.0, first.1, rest.1);
      PrependedIsWellNumbered(first.0, rest.0, rest.1);
    }
  }

  lemma CourseCountedHigher(course: Course, low: nat, high: nat)
    requires CourseSound(course, low) && low <= high
    ensures CourseSound(course, high)
  {
  }
}
