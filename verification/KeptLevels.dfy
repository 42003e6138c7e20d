/**
 * What is listed keeps its level: over any run of catalogue edits, a course, or a sub-module of a
 * course, that has a level has the same one for as long as it stays in the list.
 */
module KeptLevels {
  import opened Common
  import opened CourseCatalog

  /** The first course with the id. */
  function Found(catalog: seq<Course>, id: Id): Option<Course> {
    if catalog == [] then None
    else if catalog[0].id == id then Some(catalog[0])
    else Found(catalog[1..], id)
  }

  lemma {:induction false} FoundAtIndex(catalog: seq<Course>, id: Id)
    ensures var k := IndexOf(catalog, id);
      Found(catalog, id) == if k < |catalog| then Some(catalog[k]) else None
  {
    if catalog != [] && catalog[0].id != id {
      FoundAtIndex(catalog[1..], id);
    }
  }

  lemma FoundBehind(first: Course, rest: seq<Course>, id: Id)
    ensures Found([first] + rest, id) == if first.id == id then Some(first) else Found(rest, id)
  {
    assert ([first] + rest)[1..] == rest;
  }

  lemma {:induction false} FoundAfterAppend(catalog: seq<Course>, next: Course, id: Id)
    requires Found(catalog, id).Some?
    ensures Found(catalog + [next], id) == Found(catalog, id)
  {
    assert catalog + [next] == [catalog[0]] + (catalog[1..] + [next]);
    FoundBehind(catalog[0], catalog[1..] + [next], id);
    if catalog[0].id != id {
      FoundAfterAppend(catalog[1..], next, id);
    }
  }

  lemma {:induction false} FoundAfterReplace(catalog: seq<Course>, k: nat, next: Course, id: Id)
    requires k < |catalog| && catalog[k].id == next.id && forall i :: 0 <= i < k ==> catalog[i].id != next.id
    ensures Found(catalog[k := next], id) == if id == next.id then Some(next) else Found(catalog, id)
  {
    if k == 0 {
      assert catalog[k := next] == [next] + catalog[1..];
      FoundBehind(next, catalog[1..], id);
    } else {
      assert catalog[k := next] == [catalog[0]] + catalog[1..][k - 1 := next];
      FoundBehind(catalog[0], catalog[1..][k - 1 := next], id);
      FoundAfterReplace(catalog[1..], k - 1, next, id);
    }
  }

  lemma OthersBehind(catalog: seq<Course>, gone: Id)
    requires catalog != []
    ensures var rest := Others(catalog[1..], gone);
      Others(catalog, gone) == if catalog[0].id == gone then rest else [catalog[0]] + rest
  {
  }

  lemma {:induction false} FoundAmongOthers(catalog: seq<Course>, gone: Id, id: Id)
    requires id != gone
    ensures Found(Others(catalog, gone), id) == Found(catalog, id)
  {
    if catalog != [] {
      FoundAmongOthers(catalog[1..], gone, id);
      OthersBehind(catalog, gone);
      FoundBehind(catalog[0], Others(catalog[1..], gone), id);
    }
  }

  lemma {:induction false} NotAmongOthers(catalog: seq<Course>, gone: Id)
    ensures Found(Others(catalog, gone), gone).None?
  {
    if catalog != [] {
      NotAmongOthers(catalog[1..], gone);
      OthersBehind(catalog, gone);
      FoundBehind(catalog[0], Others(catalog[1..], gone), gone);
    }
  }

  // ---------- One course ----------

  /** A place in a course's list: the course itself or one of its sub-modules. */
  datatype Place = Whole | Part(sub: Id)

  predicate Listed(course: Course, at: Place) {
    at.Part? ==> at.sub in KnownIds(course.subs)
  }

  function LevelAt(course: Course, at: Place): Option<nat> {
    match at
    case Whole => course.level
    case Part(sub) => KnownLevel(course.subs, sub)
  }

  lemma {:induction false} SameForAllNamed(subs: seq<Sub>, id: Id, level: nat)
    requires id in KnownIds(subs) && forall i :: 0 <= i < |subs| && subs[i].id == id ==> subs[i].level == Some(level)
    ensures KnownLevel(subs, id) == Some(level)
  {
    if id in KnownIds(subs[1..]) {
      SameForAllNamed(subs[1..], id, level);
    } else {
      forall i | 0 < i < |subs| ensures subs[i].id != id {
        assert subs[1..][i - 1] == subs[i];
      }
    }
  }

  /** What a sub-module that keeps its id is built and numbered to. */
  lemma RebuiltSubKeeps(existing: Course, input: Input, minted: seq<Id>, counter: nat, sub: Id, level: nat, i: nat)
    requires |minted| == |input.subs| && Minted(existing.subs, minted)
    requires KnownLevel(existing.subs, sub) == Some(level) && level > BASE && sub in KnownIds(existing.subs)
    requires var after := AssignSubs(Build(existing, input, minted).subs, counter).0;
      i < |after| && after[i].id == sub
    ensures AssignSubs(Build(existing, input, minted).subs, counter).0[i].level == Some(level)
  {
    var built := Build(existing, input, minted).subs;
    AssignSubsNumbers(built, counter);
    assert built[i] == BuildSub(existing.subs, input.subs[i], minted[i]);
    assert minted[i] !in KnownIds(existing.subs);
    assert !LacksAt(built, i);
  }

  lemma RebuiltKeeps(existing: Course, input: Input, minted: seq<Id>, counter: nat, at: Place, level: nat)
    requires |minted| == |input.subs| && Minted(existing.subs, minted) && level > BASE
    requires Listed(existing, at) && LevelAt(existing, at) == Some(level)
    ensures var after := Assign(Build(existing, input, minted), counter).0;
      after.id == existing.id && (Listed(after, at) ==> LevelAt(after, at) == Some(level))
  {
    var after := Assign(Build(existing, input, minted), counter).0;
    if at.Part? && Listed(after, at) {
      forall i | 0 <= i < |after.subs| && after.subs[i].id == at.sub ensures after.subs[i].level == Some(level) {
        RebuiltSubKeeps(existing, input, minted, counter, at.sub, level, i);
      }
      SameForAllNamed(after.subs, at.sub, level);
    }
  }

  // ---------- Runs ----------

  /** The course is in the catalogue and lists the place. */
  predicate InList(s: Snapshot, id: Id, at: Place) {
    Found(CatalogOf(s), id).Some? && Listed(Found(CatalogOf(s), id).value, at)
  }

  function StoredAt(s: Snapshot, id: Id, at: Place): Option<nat>
    requires InList(s, id, at)
  {
    LevelAt(Found(CatalogOf(s), id).value, at)
  }

  lemma StoredIsAboveBase(s: Snapshot, id: Id, at: Place)
    requires Inv(s) && InList(s, id, at) && StoredAt(s, id, at).Some?
    ensures StoredAt(s, id, at).value > BASE
  {
    FoundAtIndex(CatalogOf(s), id);
    var course := CatalogOf(s)[IndexOf(CatalogOf(s), id)];
    if at.Part? {
      KnownLevelIsHeld(course.subs, at.sub);
    }
    NotAbove(course, Counter(s.levelSeq));
    assert CourseHolds(course, if at.Whole? then course.id else at.sub, StoredAt(s, id, at).value);
  }

  lemma EditedCourseKeeps(s: Snapshot, target: Id, input: Input, minted: seq<Id>, at: Place)
    requires Inv(s) && Fair(s, Updating(target, input, minted)) && IndexOf(CatalogOf(s), target) < |CatalogOf(s)|
    requires InList(s, target, at) && StoredAt(s, target, at).Some?
    ensures var existing := CatalogOf(s)[IndexOf(CatalogOf(s), target)];
      var next := Assign(Build(existing, input, minted), Counter(s.levelSeq)).0;
      next.id == target && (Listed(next, at) ==> LevelAt(next, at) == StoredAt(s, target, at))
  {
    FoundAtIndex(CatalogOf(s), target);
    StoredIsAboveBase(s, target, at);
    RebuiltKeeps(CatalogOf(s)[IndexOf(CatalogOf(s), target)], input, minted, Counter(s.levelSeq), at,
                 StoredAt(s, target, at).value);
  }

  lemma UpdateKeepsStored(s: Snapshot, target: Id, input: Input, minted: seq<Id>, id: Id, at: Place)
    requires Inv(s) && Fair(s, Updating(target, input, minted)) && Update(s, target, input, minted).Done?
    requires InList(s, id, at) && StoredAt(s, id, at).Some?
    ensures var t := Update(s, target, input, minted).next;
      InList(t, id, at) ==> StoredAt(t, id, at) == StoredAt(s, id, at)
  {
    var existing := CatalogOf(s)[IndexOf(CatalogOf(s), target)];
    var next := Assign(Build(existing, input, minted), Counter(s.levelSeq)).0;
    assert next.id == target;
    FoundAfterReplace(CatalogOf(s), IndexOf(CatalogOf(s), target), next, id);
    if id == target {
      EditedCourseKeeps(s, target, input, minted, at);
    }
  }

  lemma CreateKeepsStored(s: Snapshot, input: Input, added: Id, minted: seq<Id>, id: Id, at: Place)
    requires |minted| == |input.subs| && Create(s, input, added, minted).Done? && InList(s, id, at)
    ensures var t := Create(s, input, added, minted).next;
      InList(t, id, at) && StoredAt(t, id, at) == StoredAt(s, id, at)
  {
    FoundAfterAppend(CatalogOf(s), Assign(Build(Blank(added), input, minted), Counter(s.levelSeq)).0, id);
  }

  lemma DeleteKeepsStored(s: Snapshot, target: Id, id: Id, at: Place)
    requires Delete(s, target).Done? && InList(s, id, at)
    ensures var t := Delete(s, target).next;
      InList(t, id, at) ==> StoredAt(t, id, at) == StoredAt(s, id, at)
  {
    if id == target {
      NotAmongOthers(CatalogOf(s), target);
    } else {
      FoundAmongOthers(CatalogOf(s), target, id);
    }
  }

  lemma StepKeepsStored(s: Snapshot, e: Event, id: Id, at: Place)
    requires Inv(s) && Fair(s, e) && InList(s, id, at) && StoredAt(s, id, at).Some?
    ensures InList(Next(s, e), id, at) ==> StoredAt(Next(s, e), id, at) == StoredAt(s, id, at)
  {
    match e
    case Creating(input, added, minted) =>
      if Create(s, input, added, minted).Done? {
        CreateKeepsStored(s, input, added, minted, id, at);
      }
    case Updating(target, input, minted) =>
      if Update(s, target, input, minted).Done? {
        UpdateKeepsStored(s, target, input, minted, id, at);
      }
    case Deleting(target) =>
      if Delete(s, target).Done? {
        DeleteKeepsStored(s, target, id, at);
      }
    case OfferingsSet(_) =>
  }

  /** At every moment of the run the place is listed. */
  ghost predicate StaysInList(init: Snapshot, es: seq<Event>, id: Id, at: Place)
    requires FairRun(init, es)
    decreases |es|
  {
    InList(Run(init, es), id, at) && (es == [] || StaysInList(init, es[..|es| - 1], id, at))
  }

  lemma OneMoreStep(s: Snapshot, e: Event, t: Snapshot, id: Id, at: Place, level: nat)
    requires Inv(s) && Fair(s, e) && t == Next(s, e)
    requires InList(s, id, at) && StoredAt(s, id, at) == Some(level) && InList(t, id, at)
    ensures StoredAt(t, id, at) == Some(level)
  {
    StepKeepsStored(s, e, id, at);
  }

  /** Over any run a course or sub-module that stays in the list keeps the level it had when the run began. */
  lemma {:induction false} ListedKeepsLevel(init: Snapshot, es: seq<Event>, id: Id, at: Place, level: nat)
    requires Inv(init) && InList(init, id, at) && StoredAt(init, id, at) == Some(level)
    requires FairRun(init, es) && StaysInList(init, es, id, at)
    ensures StoredAt(Run(init, es), id, at) == Some(level)
    decreases |es|
  {
    if es != [] {
      var before := es[..|es| - 1];
      ListedKeepsLevel(init, before, id, at, level);
      RunKeepsInv(init, before);
      OneMoreStep(Run(init, before), es[|es| - 1], Run(init, es), id, at, level);
    }
  }
}
