/** The catalogue edits as they run: on a draft of the snapshot, written back only if nothing throws. */
module CourseEditor {
  import opened Common
  import opened CourseCatalog
  import opened CourseEdits

  lemma NumberOneMore(done: seq<Sub>, subs: seq<Sub>, i: nat, counter: nat)
    requires i < |subs|
    ensures var lacks := Lacks(subs[i].id, subs[i].level);
      var first := if lacks then subs[i].(level := Some(counter + 1)) else subs[i];
      var rest := AssignSubs(subs[i..], counter);
      var next := AssignSubs(subs[i + 1..], if lacks then counter + 1 else counter);
      done + rest.0 == (done + [first]) + next.0 && rest.1 == next.1
  {
    assert subs[i..][1..] == subs[i + 1..];
    assert AssignSubs(subs[i..], counter).0[1..]
        == AssignSubs(subs[i + 1..], if Lacks(subs[i].id, subs[i].level) then counter + 1 else counter).0;
  }

  class Draft {
    var courseCatalog: seq<Course>
    var courseLevelSeq: Option<nat>
    const offerings: seq<CourseCatalog.Offering>

    constructor (s: Snapshot)
      ensures courseCatalog == CatalogOf(s) && courseLevelSeq == s.levelSeq && offerings == s.offerings
    {
      courseCatalog := CatalogOf(s);
      courseLevelSeq := s.levelSeq;
      offerings := s.offerings;
    }

    method NextLevel() returns (level: nat)
      modifies this`courseLevelSeq
      ensures level == Counter(old(courseLevelSeq)) + 1 && courseLevelSeq == Some(level)
    {
      level := Counter(courseLevelSeq) + 1;
      courseLevelSeq := Some(level);
    }

    method NumberSub(sub: Sub) returns (numbered: Sub)
      modifies this`courseLevelSeq
      ensures numbered
           == if Lacks(sub.id, sub.level) then sub.(level := Some(Counter(old(courseLevelSeq)) + 1)) else sub
      ensures Counter(courseLevelSeq)
           == Counter(old(courseLevelSeq)) + if Lacks(sub.id, sub.level) then 1 else 0
      ensures courseLevelSeq == Stamped(old(courseLevelSeq), Counter(courseLevelSeq))
    {
      numbered := sub;
      if Lacks(sub.id, sub.level) {
        var level := NextLevel();
        numbered := sub.(level := Some(level));
      }
    }

    method NumberSubs(before: seq<Sub>) returns (subs: seq<Sub>)
      modifies this`courseLevelSeq
      ensures subs == AssignSubs(before, Counter(old(courseLevelSeq))).0
      ensures courseLevelSeq
           == Stamped(old(courseLevelSeq), AssignSubs(before, Counter(old(courseLevelSeq))).1)
    {
      ghost var was, goal := courseLevelSeq, AssignSubs(before, Counter(courseLevelSeq));
      subs := [];
      var i := 0;
      while i < |before|
        invariant i <= |before|
        invariant Counter(was) <= Counter(courseLevelSeq) && courseLevelSeq == Stamped(was, Counter(courseLevelSeq))
        invariant subs + AssignSubs(before[i..], Counter(courseLevelSeq)).0 == goal.0
        invariant AssignSubs(before[i..], Counter(courseLevelSeq)).1 == goal.1
      {
        NumberOneMore(subs, before, i, Counter(courseLevelSeq));
        var sub := NumberSub(before[i]);
        subs := subs + [sub];
        i := i + 1;
      }
    }

    method AssignEnrollmentLevels(course: Course) returns (numbered: Course)
      modifies this`courseLevelSeq
      ensures numbered == Assign(course, Counter(old(courseLevelSeq))).0
      ensures courseLevelSeq
           == Stamped(old(courseLevelSeq), Assign(course, Counter(old(courseLevelSeq))).1)
    {
      numbered := course;
      if course.subs == [] {
        if Lacks(course.id, course.level) {
          var level := NextLevel();
          numbered := course.(level := Some(level));
        }
        return;
      }
      var subs := NumberSubs(course.subs);
      numbered := course.(subs := subs);
    }
  }

  class Store {
    var current: Snapshot

    constructor (initial: Snapshot)
      ensures current == initial
    {
      current := initial;
    }

    method CreateCourse(input: Input, id: Id, minted: seq<Id>) returns (why: Option<Refusal>)
      requires |minted| == |input.subs|
      modifies this
      ensures current == Kept(old(current), Create(old(current), input, id, minted))
      ensures why == Reason(Create(old(current), input, id, minted))
      ensures Creates(old(current), current, why, input, id, minted)
    {
      CreateDoes(current, input, id, minted);
      var draft := new Draft(current);
      if !ValidInput(input, draft.courseCatalog) {
        return Some(BadTitle);
      }
      var created := draft.AssignEnrollmentLevels(Build(Blank(id), input, minted));
      draft.courseCatalog := draft.courseCatalog + [created];
      Write(draft);
      why := None;
    }

    method UpdateCourse(target: Id, input: Input, minted: seq<Id>) returns (why: Option<Refusal>)
      requires |minted| == |input.subs|
      modifies this
      ensures current == Kept(old(current), Update(old(current), target, input, minted))
      ensures why == Reason(Update(old(current), target, input, minted))
      ensures Updates(old(current), current, why, target, input, minted)
    {
      UpdateDoes(current, target, input, minted);
      var draft := new Draft(current);
      var k := IndexOf(draft.courseCatalog, target);
      if k == |draft.courseCatalog| {
        return Some(UnknownCourse);
      }
      var existing := draft.courseCatalog[k];
      if !ValidInput(input, Others(draft.courseCatalog, target)) {
        return Some(BadTitle);
      }
      var next := draft.AssignEnrollmentLevels(Build(existing, input, minted));
      if exists i :: 0 <= i < |draft.offerings| && draft.offerings[i].isOffered
                     && Dropped(existing, next, draft.offerings[i].leaf) {
        return Some(StillOffered);
      }
      draft.courseCatalog := draft.courseCatalog[k := next];
      Write(draft);
      why := None;
    }

    method DeleteCourse(target: Id) returns (why: Option<Refusal>)
      modifies this
      ensures current == Kept(old(current), Delete(old(current), target))
      ensures why == Reason(Delete(old(current), target))
      ensures Deletes(old(current), current, why, target)
    {
      DeleteDoes(current, target);
      var draft := new Draft(current);
      var k := IndexOf(draft.courseCatalog, target);
      if k == |draft.courseCatalog| {
        return Some(UnknownCourse);
      }
      var course := draft.courseCatalog[k];
      if exists i :: 0 <= i < |draft.offerings| && draft.offerings[i].leaf in LeafIds(course) {
        return Some(HasHistory);
      }
      draft.courseCatalog := Others(draft.courseCatalog, target);
      Write(draft);
      why := None;
    }

    method Write(draft: Draft)
      modifies this
      ensures current == Snapshot(Some(draft.courseCatalog), draft.courseLevelSeq, draft.offerings)
    {
      current := Snapshot(Some(draft.courseCatalog), draft.courseLevelSeq, draft.offerings);
    }
  }

  method FindLeafByEnrollmentLevel(catalog: seq<Course>, audience: Audience, level: nat) returns (leaf: Option<Leaf>)
    ensures leaf == FindLeaf(catalog, audience, level)
  {
    var i := 0;
    while i < |catalog|
      invariant i <= |catalog|
      invariant FindLeaf(catalog, audience, level) == FindLeaf(catalog[i..], audience, level)
    {
      assert catalog[i..][1..] == catalog[i + 1..];
      if catalog[i].isActive && catalog[i].audience == audience {
        leaf := WithLevel(EnrollmentLeavesOf(catalog[i]), level);
        if leaf.Some? {
          return;
        }
      }
      i := i + 1;
    }
    leaf := None;
  }

  lemma FlattenOneMore(items: seq<Item>, catalog: seq<Course>, i: nat, audience: Audience)
    requires i < |catalog|
    ensures items + Flattened(catalog[i..], audience)
         == (items + ItemsOf(catalog[i], audience)) + Flattened(catalog[i + 1..], audience)
    ensures ItemsOf(catalog[i], audience) == [] ==> items + ItemsOf(catalog[i], audience) == items
  {
    assert catalog[i..][1..] == catalog[i + 1..];
  }

  method FlattenCourseCatalog(catalog: seq<Course>, audience: Audience) returns (items: seq<Item>)
    ensures items == Flattened(catalog, audience)
  {
    items := [];
    var i := 0;
    while i < |catalog|
      invariant i <= |catalog|
      invariant items + Flattened(catalog[i..], audience) == Flattened(catalog, audience)
    {
      var course := catalog[i];
      FlattenOneMore(items, catalog, i, audience);
      if course.isActive && course.audience == audience {
        if course.subs == [] {
          items := items + [Item(course.id, course.title, KindFor(audience), None)];
        } else {
          items := PushSubs(items, course, audience);
        }
      }
      i := i + 1;
    }
  }

  method PushSubs(before: seq<Item>, course: Course, audience: Audience) returns (items: seq<Item>)
    ensures items == before + SubItems(course.subs, KindFor(audience), (course.id, course.title))
  {
    var kind, group := KindFor(audience), (course.id, course.title);
    items := before;
    var i := 0;
    while i < |course.subs|
      invariant i <= |course.subs|
      invariant items + SubItems(course.subs[i..], kind, group) == before + SubItems(course.subs, kind, group)
    {
      var item := Item(course.subs[i].id, course.subs[i].title, kind, Some(group));
      assert course.subs[i..][1..] == course.subs[i + 1..];
      Associate(items, [item], SubItems(course.subs[i + 1..], kind, group));
      items := items + [item];
      i := i + 1;
    }
  }
}
