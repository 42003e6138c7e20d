/** What each catalogue edit does to the list, said of the list and the form: when it is accepted and what it leaves. */
module CourseEdits {
  import opened Common
  import opened CourseCatalog

  // ---------- When an edit is accepted ----------

  /** Course number `k` is the first with the id. */
  predicate IsFirst(catalog: seq<Course>, id: Id, k: nat) {
    k < |catalog| && catalog[k].id == id && forall i :: 0 <= i < k ==> catalog[i].id != id
  }

  predicate Listed(catalog: seq<Course>, id: Id) {
    exists k :: 0 <= k < |catalog| && catalog[k].id == id
  }

  /** A course without sub-modules is its own leaf. */
  ghost predicate IsLeaf(course: Course, leaf: Id) {
    if |course.subs| == 0 then leaf == course.id
    else exists i :: 0 <= i < |course.subs| && course.subs[i].id == leaf
  }

  ghost predicate Blameless(input: Input) {
    && |Trim(input.title)| > 0
    && (forall i :: 0 <= i < |input.subs| ==> |Trim(input.subs[i].title)| > 0)
    && forall i, j :: 0 <= i < |input.subs| && 0 <= j < |input.subs| && i != j ==>
         Trim(input.subs[i].title) != Trim(input.subs[j].title)
  }

  /** Some course of the audience, other than those with the id, has the form's title. */
  ghost predicate TitleTaken(catalog: seq<Course>, except: Option<Id>, input: Input) {
    exists c :: c in catalog && Some(c.id) != except && c.audience == input.audience
             && Trim(c.title) == Trim(input.title)
  }

  /** The course the form makes has this leaf: sub-modules that name an old one keep its id. */
  ghost predicate FormHasLeaf(existing: Course, input: Input, minted: seq<Id>, leaf: Id)
    requires |minted| == |input.subs|
  {
    if |input.subs| == 0 then leaf == existing.id
    else exists i :: 0 <= i < |input.subs| && SubIdFor(existing, input.subs[i], minted[i]) == leaf
  }

  ghost function SubIdFor(existing: Course, sub: SubInput, minted: Id): Id {
    match sub.id
    case Some(id) => if exists i :: 0 <= i < |existing.subs| && existing.subs[i].id == id then id else minted
    case None => minted
  }

  /** An offered leaf of the course would no longer be listed where it is offered. */
  ghost predicate HidesOffered(s: Snapshot, existing: Course, input: Input, minted: seq<Id>)
    requires |minted| == |input.subs|
  {
    exists k :: 0 <= k < |s.offerings| && s.offerings[k].isOffered && IsLeaf(existing, s.offerings[k].leaf)
             && (|| input.audience != existing.audience || !input.isActive
                 || !FormHasLeaf(existing, input, minted, s.offerings[k].leaf))
  }

  ghost predicate HasOfferings(s: Snapshot, course: Course) {
    exists k :: 0 <= k < |s.offerings| && IsLeaf(course, s.offerings[k].leaf)
  }

  // ---------- What an accepted edit leaves ----------

  /** The course says what the form says. */
  ghost predicate Reads(course: Course, input: Input) {
    && course.title == Trim(input.title) && course.audience == input.audience && course.isActive == input.isActive
    && |course.subs| == |input.subs|
    && forall i :: 0 <= i < |input.subs| ==> course.subs[i].title == Trim(input.subs[i].title)
  }

  ghost predicate HasSubIds(course: Course, existing: Course, input: Input, minted: seq<Id>)
    requires |course.subs| == |input.subs| == |minted|
  {
    forall i :: 0 <= i < |input.subs| ==> course.subs[i].id == SubIdFor(existing, input.subs[i], minted[i])
  }

  /** The leaves of a new course get the next levels, in order. */
  ghost predicate NumberedFrom(course: Course, counter: nat) {
    if |course.subs| == 0 then course.level == Some(counter + 1)
    else forall i :: 0 <= i < |course.subs| ==> course.subs[i].level == Some(counter + 1 + i)
  }

  /** How many courses of the id come before number `k`. */
  ghost function Before(catalog: seq<Course>, id: Id, k: nat): (n: nat)
    requires k <= |catalog|
    ensures n <= k
  {
    if k == 0 then 0 else Before(catalog, id, k - 1) + if catalog[k - 1].id == id then 1 else 0
  }

  ghost predicate MovedUp(catalog: seq<Course>, id: Id, rest: seq<Course>, k: nat)
    requires k < |catalog|
  {
    var i := k - Before(catalog, id, k);
    i < |rest| && rest[i] == catalog[k]
  }

  /** `rest` is the list without the courses of the id: each other course moves up by those taken out before it. */
  ghost predicate Without(catalog: seq<Course>, id: Id, rest: seq<Course>) {
    && |rest| == |catalog| - Before(catalog, id, |catalog|)
    && forall k: nat {:trigger MovedUp(catalog, id, rest, k)} ::
         k < |catalog| && catalog[k].id != id ==> MovedUp(catalog, id, rest, k)
  }

  ghost predicate Removed(before: Snapshot, after: Snapshot, id: Id) {
    && after.offerings == before.offerings && after.levelSeq == before.levelSeq
    && !Listed(CatalogOf(after), id)
    && Without(CatalogOf(before), id, CatalogOf(after))
  }

  ghost predicate Added(before: Snapshot, after: Snapshot, input: Input, id: Id, minted: seq<Id>)
    requires |minted| == |input.subs|
  {
    var n := |CatalogOf(before)|;
    && after.offerings == before.offerings
    && |CatalogOf(after)| == n + 1 && CatalogOf(after)[..n] == CatalogOf(before)
    && CatalogOf(after)[n].id == id && Reads(CatalogOf(after)[n], input)
    && (forall i :: 0 <= i < |minted| ==> CatalogOf(after)[n].subs[i].id == minted[i])
    && (id.Other? && Minted([], minted) ==>
      && NumberedFrom(CatalogOf(after)[n], Counter(before.levelSeq))
      && Counter(after.levelSeq) == Counter(before.levelSeq) + if |minted| == 0 then 1 else |minted|)
  }

  ghost predicate Replaced(before: Snapshot, after: Snapshot, target: Id, k: nat, input: Input, minted: seq<Id>)
    requires |minted| == |input.subs| && IsFirst(CatalogOf(before), target, k)
  {
    && after.offerings == before.offerings && Counter(after.levelSeq) >= Counter(before.levelSeq)
    && |CatalogOf(after)| == |CatalogOf(before)|
    && (forall i :: 0 <= i < |CatalogOf(before)| && i != k ==> CatalogOf(after)[i] == CatalogOf(before)[i])
    && CatalogOf(after)[k].id == target && Reads(CatalogOf(after)[k], input)
    && HasSubIds(CatalogOf(after)[k], CatalogOf(before)[k], input, minted)
  }

  // ---------- The whole of an edit ----------

  function Reason(r: Outcome): Option<Refusal> {
    if r.Refused? then Some(r.why) else None
  }

  /** Accepted when the form is blameless and its title free: then the course it describes comes last. */
  ghost predicate Creates(
    before: Snapshot, after: Snapshot, why: Option<Refusal>, input: Input, id: Id, minted: seq<Id>)
    requires |minted| == |input.subs|
  {
    && why == (if Blameless(input) && !TitleTaken(CatalogOf(before), None, input) then None else Some(BadTitle))
    && if why.None? then Added(before, after, input, id, minted) else after == before
  }

  /** Accepted when moreover the course is there and no leaf of it that is offered gets hidden. */
  ghost predicate Updates(
    before: Snapshot, after: Snapshot, why: Option<Refusal>, target: Id, input: Input, minted: seq<Id>)
    requires |minted| == |input.subs|
  {
    && (why == Some(UnknownCourse) <==> !Listed(CatalogOf(before), target))
    && (forall k: nat :: IsFirst(CatalogOf(before), target, k) ==>
      && why == (if !Blameless(input) || TitleTaken(CatalogOf(before), Some(target), input) then Some(BadTitle)
                 else if HidesOffered(before, CatalogOf(before)[k], input, minted) then Some(StillOffered)
                 else None)
      && (why.None? ==> Replaced(before, after, target, k, input, minted)))
    && (why.Some? ==> after == before)
  }

  /** Accepted when the course is there and nothing was ever offered of it: then it is gone, and nothing else. */
  ghost predicate Deletes(before: Snapshot, after: Snapshot, why: Option<Refusal>, target: Id) {
    && (why == Some(UnknownCourse) <==> !Listed(CatalogOf(before), target))
    && (forall k: nat :: IsFirst(CatalogOf(before), target, k) ==>
      why == if HasOfferings(before, CatalogOf(before)[k]) then Some(HasHistory) else None)
    && if why.None? then Removed(before, after, target) else after == before
  }

  // ---------- The edits do that ----------

  lemma IndexOfIsFirst(catalog: seq<Course>, id: Id)
    ensures IndexOf(catalog, id) < |catalog| <==> Listed(catalog, id)
    ensures IndexOf(catalog, id) < |catalog| ==> IsFirst(catalog, id, IndexOf(catalog, id))
    ensures forall k :: IsFirst(catalog, id, k) ==> k == IndexOf(catalog, id)
  {
  }

  lemma LeafIdsAreLeaves(course: Course, leaf: Id)
    ensures leaf in LeafIds(course) <==> IsLeaf(course, leaf)
  {
    if course.subs != [] && IsLeaf(course, leaf) {
      var i :| 0 <= i < |course.subs| && course.subs[i].id == leaf;
      assert LeafIds(course)[i] == leaf;
    }
  }

  lemma ValidMeans(input: Input, catalog: seq<Course>, except: Option<Id>, others: seq<Course>)
    requires forall c :: c in others <==> c in catalog && Some(c.id) != except
    ensures ValidInput(input, others) <==> Blameless(input) && !TitleTaken(catalog, except, input)
  {
    if TitleTaken(catalog, except, input) {
      var c :| c in catalog && Some(c.id) != except && c.audience == input.audience
        && Trim(c.title) == Trim(input.title);
      assert c in others;
    } else {
      assert forall i :: 0 <= i < |others| ==> others[i] in others;
    }
  }

  lemma {:induction false} BeforeInTail(catalog: seq<Course>, id: Id, k: nat)
    requires 0 < k <= |catalog|
    ensures Before(catalog, id, k) == (if catalog[0].id == id then 1 else 0) + Before(catalog[1..], id, k - 1)
  {
    if k > 1 {
      BeforeInTail(catalog, id, k - 1);
      assert catalog[1..][k - 2] == catalog[k - 1];
    }
  }

  lemma MovesUpInTail(catalog: seq<Course>, id: Id, first: seq<Course>, rest: seq<Course>, k: nat)
    requires 0 < k < |catalog| && |first| == if catalog[0].id == id then 0 else 1
    requires MovedUp(catalog[1..], id, rest, k - 1)
    ensures MovedUp(catalog, id, first + rest, k)
  {
    BeforeInTail(catalog, id, k);
    assert catalog[1..][k - 1] == catalog[k];
  }

  lemma WithoutStep(catalog: seq<Course>, id: Id, first: seq<Course>, rest: seq<Course>)
    requires catalog != [] && first == if catalog[0].id == id then [] else [catalog[0]]
    requires Without(catalog[1..], id, rest)
    ensures Without(catalog, id, first + rest)
  {
    var tail := catalog[1..];
    BeforeInTail(catalog, id, |catalog|);
    forall k: nat | k < |catalog| && catalog[k].id != id ensures MovedUp(catalog, id, first + rest, k) {
      if k > 0 {
        assert tail[k - 1] == catalog[k];
        assert MovedUp(tail, id, rest, k - 1);
        MovesUpInTail(catalog, id, first, rest, k);
      }
    }
  }

  lemma {:induction false} OthersWithout(catalog: seq<Course>, id: Id)
    ensures Without(catalog, id, Others(catalog, id))
  {
    if catalog != [] {
      OthersWithout(catalog[1..], id);
      WithoutStep(catalog, id, if catalog[0].id == id then [] else [catalog[0]], Others(catalog[1..], id));
    }
  }

  lemma DeleteDoes(s: Snapshot, target: Id)
    ensures Deletes(s, Kept(s, Delete(s, target)), Reason(Delete(s, target)), target)
  {
    IndexOfIsFirst(CatalogOf(s), target);
    var k := IndexOf(CatalogOf(s), target);
    if k < |CatalogOf(s)| {
      forall i | 0 <= i < |s.offerings|
        ensures s.offerings[i].leaf in LeafIds(CatalogOf(s)[k]) <==> IsLeaf(CatalogOf(s)[k], s.offerings[i].leaf)
      {
        LeafIdsAreLeaves(CatalogOf(s)[k], s.offerings[i].leaf);
      }
      OthersWithout(CatalogOf(s), target);
    }
  }

  lemma {:induction false} FreshSubsAreNumbered(subs: seq<Sub>, counter: nat)
    requires forall i :: 0 <= i < |subs| ==> subs[i].id.Other? && subs[i].level.None?
    ensures var r := AssignSubs(subs, counter);
      && |r.0| == |subs| && r.1 == counter + |subs|
      && forall i :: 0 <= i < |subs| ==> r.0[i] == subs[i].(level := Some(counter + 1 + i))
  {
    if subs != [] {
      FreshSubsAreNumbered(subs[1..], counter + 1);
      var rest := AssignSubs(subs[1..], counter + 1);
      forall i | 0 <= i < |subs| ensures AssignSubs(subs, counter).0[i] == subs[i].(level := Some(counter + 1 + i)) {
        if i > 0 {
          assert rest.0[i - 1] == subs[1..][i - 1].(level := Some(counter + 1 + i));
        }
      }
    }
  }

  lemma {:induction false} AssignKeepsTitles(subs: seq<Sub>, counter: nat)
    ensures var r := AssignSubs(subs, counter);
      && |r.0| == |subs| && r.1 >= counter
      && forall i :: 0 <= i < |subs| ==> r.0[i].title == subs[i].title && r.0[i].id == subs[i].id
  {
    if subs != [] {
      var next := if Lacks(subs[0].id, subs[0].level) then counter + 1 else counter;
      AssignKeepsTitles(subs[1..], next);
      var rest := AssignSubs(subs[1..], next);
      forall i | 0 < i < |subs|
        ensures var r := AssignSubs(subs, counter).0[i]; r.title == subs[i].title && r.id == subs[i].id
      {
        assert AssignSubs(subs, counter).0[i] == rest.0[i - 1] && subs[1..][i - 1] == subs[i];
      }
    }
  }

  lemma BuiltIds(existing: Course, input: Input, minted: seq<Id>)
    requires |minted| == |input.subs|
    ensures HasSubIds(Build(existing, input, minted), existing, input, minted)
  {
  }

  /** What the form makes of a course, numbered or not. */
  lemma RebuildReads(existing: Course, input: Input, minted: seq<Id>, counter: nat)
    requires |minted| == |input.subs|
    ensures var r := Assign(Build(existing, input, minted), counter);
      && r.0.id == existing.id && r.1 >= counter && Reads(r.0, input)
      && HasSubIds(r.0, existing, input, minted)
  {
    AssignKeepsTitles(Build(existing, input, minted).subs, counter);
    BuiltIds(existing, input, minted);
  }

  lemma NewIsNumbered(id: Id, input: Input, minted: seq<Id>, counter: nat)
    requires |minted| == |input.subs| && id.Other? && Minted([], minted)
    ensures var r := Assign(Build(Blank(id), input, minted), counter);
      NumberedFrom(r.0, counter) && r.1 == counter + if |minted| == 0 then 1 else |minted|
  {
    FreshSubsAreNumbered(Build(Blank(id), input, minted).subs, counter);
  }

  lemma CreateAdds(s: Snapshot, input: Input, id: Id, minted: seq<Id>)
    requires |minted| == |input.subs| && Create(s, input, id, minted).Done?
    ensures Added(s, Create(s, input, id, minted).next, input, id, minted)
  {
    RebuildReads(Blank(id), input, minted, Counter(s.levelSeq));
    if id.Other? && Minted([], minted) {
      NewIsNumbered(id, input, minted, Counter(s.levelSeq));
    }
  }

  lemma CreateDoes(s: Snapshot, input: Input, id: Id, minted: seq<Id>)
    requires |minted| == |input.subs|
    ensures var r := Create(s, input, id, minted); Creates(s, Kept(s, r), Reason(r), input, id, minted)
  {
    ValidMeans(input, CatalogOf(s), None, CatalogOf(s));
    if Create(s, input, id, minted).Done? {
      CreateAdds(s, input, id, minted);
    }
  }

  lemma FormLeaves(existing: Course, input: Input, minted: seq<Id>, next: Course, leaf: Id)
    requires |minted| == |input.subs| == |next.subs| && next.id == existing.id
    requires HasSubIds(next, existing, input, minted)
    ensures leaf in LeafIds(next) <==> FormHasLeaf(existing, input, minted, leaf)
  {
    LeafIdsAreLeaves(next, leaf);
  }

  lemma DroppedHides(s: Snapshot, existing: Course, input: Input, minted: seq<Id>, next: Course)
    requires |minted| == |input.subs| && Reads(next, input) && next.id == existing.id
    requires HasSubIds(next, existing, input, minted)
    ensures (exists i :: 0 <= i < |s.offerings| && s.offerings[i].isOffered
                      && Dropped(existing, next, s.offerings[i].leaf))
      <==> HidesOffered(s, existing, input, minted)
  {
    forall i | 0 <= i < |s.offerings|
      ensures Dropped(existing, next, s.offerings[i].leaf) <==>
        && IsLeaf(existing, s.offerings[i].leaf)
        && (|| input.audience != existing.audience || !input.isActive
            || !FormHasLeaf(existing, input, minted, s.offerings[i].leaf))
    {
      LeafIdsAreLeaves(existing, s.offerings[i].leaf);
      FormLeaves(existing, input, minted, next, s.offerings[i].leaf);
    }
  }

  lemma UpdateReplaces(s: Snapshot, target: Id, input: Input, minted: seq<Id>)
    requires |minted| == |input.subs| && Update(s, target, input, minted).Done?
    ensures var k := IndexOf(CatalogOf(s), target);
      && IsFirst(CatalogOf(s), target, k)
      && Replaced(s, Update(s, target, input, minted).next, target, k, input, minted)
  {
    RebuildReads(CatalogOf(s)[IndexOf(CatalogOf(s), target)], input, minted, Counter(s.levelSeq));
  }

  lemma UpdateIsRefused(s: Snapshot, target: Id, input: Input, minted: seq<Id>)
    requires |minted| == |input.subs| && IndexOf(CatalogOf(s), target) < |CatalogOf(s)|
    ensures var existing := CatalogOf(s)[IndexOf(CatalogOf(s), target)];
      Reason(Update(s, target, input, minted)) ==
        if !Blameless(input) || TitleTaken(CatalogOf(s), Some(target), input) then Some(BadTitle)
        else if HidesOffered(s, existing, input, minted) then Some(StillOffered)
        else None
  {
    var existing := CatalogOf(s)[IndexOf(CatalogOf(s), target)];
    ValidMeans(input, CatalogOf(s), Some(target), Others(CatalogOf(s), target));
    RebuildReads(existing, input, minted, Counter(s.levelSeq));
    DroppedHides(s, existing, input, minted, Assign(Build(existing, input, minted), Counter(s.levelSeq)).0);
  }

  lemma UpdateDoes(s: Snapshot, target: Id, input: Input, minted: seq<Id>)
    requires |minted| == |input.subs|
    ensures var r := Update(s, target, input, minted); Updates(s, Kept(s, r), Reason(r), target, input, minted)
  {
    IndexOfIsFirst(CatalogOf(s), target);
    if IndexOf(CatalogOf(s), target) < |CatalogOf(s)| {
      UpdateIsRefused(s, target, input, minted);
      if Update(s, target, input, minted).Done? {
        UpdateReplaces(s, target, input, minted);
      }
    }
  }
}
