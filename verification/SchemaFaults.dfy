/** Exactly which errors the response validator reports, and where, said of the contract and the value alone. */
module SchemaFaults {
  import opened Common
  import opened SchemaValidator

  /** The contract `s`, read inside `owner`, is broken by `v` in the way `what` at the place `path` leads to. */
  ghost predicate Broken(
    doc: Doc, rank: Rank, gaps: Gaps, v: Json, s: Schema, owner: Option<string>, path: seq<Step>, what: Complaint)
    requires Ranked(doc, rank)
    decreases v, Level(rank, s), s
  {
    if s.ref.Some? then s.ref.value in doc && Broken(doc, rank, gaps, v, doc[s.ref.value], s.ref, path, what)
    else if v == Null || v == Undefined then path == [] && what == NotNullable && !s.nullable
    else if s.allOf.Listed? then SomePartBroken(doc, rank, gaps, v, s, 0, owner, path, what)
    else if s.oneOf.Listed? || s.anyOf.Listed? then
      path == [] && what == NoAlternative && !FitsAnyFrom(doc, rank, gaps, v, s, 0, owner)
    else if path == [] then BrokenHere(v, s, what)
    else
      match path[0]
      case Index(i) =>
        && s.kind == ArrayKind && s.items.Some? && v.Arr? && i < |v.items|
        && Broken(doc, rank, gaps, v.items[i], s.items.value, None, path[1..], what)
      case Key(key) =>
        && s.kind == ObjectKind && v.Obj?
        && if key in v.fields then
             && !Excused(gaps, owner, key, v.fields[key])
             && exists k :: 0 <= k < |s.properties| && s.properties[k].key == key
                  && Broken(doc, rank, gaps, v.fields[key], s.properties[k].schema, None, path[1..], what)
           else |path| == 1 && what == Missing && key in s.required && !MayLack(gaps, owner, key)
  }

  /** Some part from part `i` on is. */
  ghost predicate SomePartBroken(
    doc: Doc, rank: Rank, gaps: Gaps, v: Json, s: Schema, i: nat, owner: Option<string>, path: seq<Step>,
    what: Complaint)
    requires Ranked(doc, rank) && s.ref.None? && i <= |Parts(s)|
    decreases v, Level(rank, s), s, 0, |Parts(s)| - i
  {
    i < |Parts(s)| &&
      (PartsAreNoHigher(rank, s, 0, i);
       || Broken(doc, rank, gaps, v, Parts(s)[i], owner, path, what)
       || SomePartBroken(doc, rank, gaps, v, s, i + 1, owner, path, what))
  }

  ghost predicate BrokenHere(v: Json, s: Schema, what: Complaint) {
    || (what == NotInEnum && s.enum.Some? && (v !in s.enum.value || v.Arr? || v.Obj?))
    || (what == WrongType && !HasKind(v, s.kind))
  }

  predicate MayLack(gaps: Gaps, owner: Option<string>, key: string) {
    owner.Some? && (owner.value, key) in gaps.empty
  }

  // ---------- The faults of one step down ----------

  lemma Deeper(at: seq<Step>, path: seq<Step>)
    requires path != []
    ensures at + path == (at + [path[0]]) + path[1..]
  {
    assert path == [path[0]] + path[1..];
  }

  lemma UnderAnotherStep(child: Json, at: seq<Step>, step: Step, faults: seq<Fault>, path: seq<Step>, what: Complaint)
    requires AllLocated(child, at + [step], faults) && (path == [] || path[0] != step)
    ensures Fault(at + path, what) !in faults
  {
    forall f | f in faults ensures f.at != at + path {
      assert Located(child, at + [step], f);
      assert f.at[|at|] == step;
    }
  }

  /** What the check of a child adds: the faults under its own step, as it finds them. */
  lemma {:induction false} ChildFaults(
    doc: Doc, rank: Rank, gaps: Gaps, child: Json, s: Schema, at: seq<Step>, step: Step, path: seq<Step>,
    what: Complaint)
    requires Ranked(doc, rank) && Check(doc, rank, gaps, child, s, at + [step], None).Ok?
    ensures Fault(at + path, what) in Check(doc, rank, gaps, child, s, at + [step], None).value
      <==> path != [] && path[0] == step && Broken(doc, rank, gaps, child, s, None, path[1..], what)
    decreases child, Level(rank, s), s, 5
  {
    if path != [] && path[0] == step {
      Deeper(at, path);
      FaultsAreExactly(doc, rank, gaps, child, s, at + [step], None, path[1..], what);
    } else {
      FaultsAreLocated(doc, rank, gaps, child, s, at + [step], None);
      UnderAnotherStep(child, at, step, Check(doc, rank, gaps, child, s, at + [step], None).value, path, what);
    }
  }

  lemma {:induction false} ItemFaults(
    doc: Doc, rank: Rank, gaps: Gaps, v: Json, s: Schema, i: nat, at: seq<Step>, path: seq<Step>, what: Complaint)
    requires Ranked(doc, rank) && v.Arr? && s.items.Some? && i <= |v.items|
    requires ItemsFrom(doc, rank, gaps, v, s, i, at).Ok?
    ensures Fault(at + path, what) in ItemsFrom(doc, rank, gaps, v, s, i, at).value <==>
      && path != [] && path[0].Index? && i <= path[0].i < |v.items|
      && Broken(doc, rank, gaps, v.items[path[0].i], s.items.value, None, path[1..], what)
    decreases v, 0, s, 0, |v.items| - i
  {
    if i < |v.items| {
      ChildFaults(doc, rank, gaps, v.items[i], s.items.value, at, Index(i), path, what);
      ItemFaults(doc, rank, gaps, v, s, i + 1, at, path, what);
    }
  }

  lemma {:induction false} MissingFaultsAre(
    gaps: Gaps, v: Json, keys: seq<string>, at: seq<Step>, owner: Option<string>, path: seq<Step>, what: Complaint)
    requires v.Obj?
    ensures Fault(at + path, what) in MissingFaults(gaps, v, keys, at, owner) <==>
      && |path| == 1 && path[0].Key? && what == Missing
      && path[0].key in keys && path[0].key !in v.fields && !MayLack(gaps, owner, path[0].key)
  {
    if keys != [] {
      MissingFaultsAre(gaps, v, keys[1..], at, owner, path, what);
      SamePlace(at, path, [Key(keys[0])]);
    }
  }

  lemma SamePlace(at: seq<Step>, a: seq<Step>, b: seq<Step>)
    ensures at + a == at + b <==> a == b
  {
    assert (at + a)[|at|..] == a && (at + b)[|at|..] == b;
  }

  lemma Here(at: seq<Step>, path: seq<Step>)
    ensures at + path == at <==> path == []
  {
    assert at + [] == at && |at + path| == |at| + |path|;
  }

  /** Some property from number `i` on that bears the name of the field is broken by it. */
  ghost predicate FieldBroken(
    doc: Doc, rank: Rank, gaps: Gaps, v: Json, s: Schema, i: nat, owner: Option<string>, path: seq<Step>,
    what: Complaint)
    requires Ranked(doc, rank) && v.Obj?
  {
    && path != [] && path[0].Key? && path[0].key in v.fields
    && !Excused(gaps, owner, path[0].key, v.fields[path[0].key])
    && exists k :: i <= k < |s.properties| && s.properties[k].key == path[0].key
         && Broken(doc, rank, gaps, v.fields[path[0].key], s.properties[k].schema, None, path[1..], what)
  }

  lemma FieldBrokenStep(
    doc: Doc, rank: Rank, gaps: Gaps, v: Json, s: Schema, i: nat, owner: Option<string>, path: seq<Step>,
    what: Complaint)
    requires Ranked(doc, rank) && v.Obj? && i < |s.properties|
    ensures FieldBroken(doc, rank, gaps, v, s, i, owner, path, what) <==>
      || FieldBroken(doc, rank, gaps, v, s, i + 1, owner, path, what)
      || (&& path != [] && path[0] == Key(s.properties[i].key) && path[0].key in v.fields
          && !Excused(gaps, owner, path[0].key, v.fields[path[0].key])
          && Broken(doc, rank, gaps, v.fields[path[0].key], s.properties[i].schema, None, path[1..], what))
  {
  }

  lemma {:induction false} FieldFaults(
    doc: Doc, rank: Rank, gaps: Gaps, v: Json, s: Schema, i: nat, at: seq<Step>, owner: Option<string>,
    path: seq<Step>, what: Complaint)
    requires Ranked(doc, rank) && v.Obj? && i <= |s.properties|
    requires FieldsFrom(doc, rank, gaps, v, s, i, at, owner).Ok?
    ensures Fault(at + path, what) in FieldsFrom(doc, rank, gaps, v, s, i, at, owner).value
      <==> FieldBroken(doc, rank, gaps, v, s, i, owner, path, what)
    decreases v, 0, s, 0, |s.properties| - i
  {
    if i < |s.properties| {
      var key := s.properties[i].key;
      FieldFaults(doc, rank, gaps, v, s, i + 1, at, owner, path, what);
      FieldBrokenStep(doc, rank, gaps, v, s, i, owner, path, what);
      if key in v.fields && !Excused(gaps, owner, key, v.fields[key]) {
        ChildFaults(doc, rank, gaps, v.fields[key], s.properties[i].schema, at, Key(key), path, what);
      }
    }
  }

  // ---------- The faults of a value ----------

  lemma {:induction false} PartFaults(
    doc: Doc, rank: Rank, gaps: Gaps, v: Json, s: Schema, i: nat, at: seq<Step>, owner: Option<string>,
    path: seq<Step>, what: Complaint)
    requires Ranked(doc, rank) && s.ref.None? && i <= |Parts(s)|
    requires AllFrom(doc, rank, gaps, v, s, i, at, owner).Ok?
    ensures Fault(at + path, what) in AllFrom(doc, rank, gaps, v, s, i, at, owner).value
      <==> SomePartBroken(doc, rank, gaps, v, s, i, owner, path, what)
    decreases v, Level(rank, s), s, 0, |Parts(s)| - i
  {
    if i < |Parts(s)| {
      PartsAreNoHigher(rank, s, 0, i);
      FaultsAreExactly(doc, rank, gaps, v, Parts(s)[i], at, owner, path, what);
      PartFaults(doc, rank, gaps, v, s, i + 1, at, owner, path, what);
    }
  }

  ghost predicate Plain(s: Schema) {
    s.ref.None? && !s.allOf.Listed? && !s.oneOf.Listed? && !s.anyOf.Listed?
  }

  lemma OwnFaultsAre(v: Json, s: Schema, at: seq<Step>, path: seq<Step>, what: Complaint)
    ensures Fault(at + path, what) in OwnFaults(v, s, at) <==> path == [] && BrokenHere(v, s, what)
  {
    Here(at, path);
  }

  lemma {:induction false} ArrayFaults(
    doc: Doc, rank: Rank, gaps: Gaps, v: Json, s: Schema, at: seq<Step>, path: seq<Step>, what: Complaint,
    owner: Option<string>)
    requires Ranked(doc, rank) && Plain(s) && s.kind == ArrayKind && v.Arr? && s.items.Some?
    requires ItemsFrom(doc, rank, gaps, v, s, 0, at).Ok?
    ensures Fault(at + path, what) in ItemsFrom(doc, rank, gaps, v, s, 0, at).value
      <==> path != [] && Broken(doc, rank, gaps, v, s, owner, path, what)
    decreases v, 0, s, 1
  {
    ItemFaults(doc, rank, gaps, v, s, 0, at, path, what);
  }

  lemma ObjectBroken(
    doc: Doc, rank: Rank, gaps: Gaps, v: Json, s: Schema, owner: Option<string>, path: seq<Step>, what: Complaint)
    requires Ranked(doc, rank) && Plain(s) && s.kind == ObjectKind && v.Obj? && path != []
    ensures Broken(doc, rank, gaps, v, s, owner, path, what) <==>
      || FieldBroken(doc, rank, gaps, v, s, 0, owner, path, what)
      || (&& |path| == 1 && path[0].Key? && what == Missing
          && path[0].key in s.required && path[0].key !in v.fields && !MayLack(gaps, owner, path[0].key))
  {
  }

  lemma {:induction false} ObjectFaults(
    doc: Doc, rank: Rank, gaps: Gaps, v: Json, s: Schema, at: seq<Step>, owner: Option<string>, path: seq<Step>,
    what: Complaint)
    requires Ranked(doc, rank) && Plain(s) && s.kind == ObjectKind && v.Obj?
    requires FieldsFrom(doc, rank, gaps, v, s, 0, at, owner).Ok?
    ensures Fault(at + path, what) in
        MissingFaults(gaps, v, s.required, at, owner) + FieldsFrom(doc, rank, gaps, v, s, 0, at, owner).value
      <==> path != [] && Broken(doc, rank, gaps, v, s, owner, path, what)
    decreases v, 0, s, 1
  {
    MissingFaultsAre(gaps, v, s.required, at, owner, path, what);
    FieldFaults(doc, rank, gaps, v, s, 0, at, owner, path, what);
    if path != [] {
      ObjectBroken(doc, rank, gaps, v, s, owner, path, what);
    }
  }

  lemma {:induction false} InsideFaults(
    doc: Doc, rank: Rank, gaps: Gaps, v: Json, s: Schema, at: seq<Step>, owner: Option<string>, path: seq<Step>,
    what: Complaint)
    requires Ranked(doc, rank) && Plain(s) && v != Null && v != Undefined
    requires Inside(doc, rank, gaps, v, s, at, owner).Ok?
    ensures Fault(at + path, what) in Inside(doc, rank, gaps, v, s, at, owner).value
      <==> path != [] && Broken(doc, rank, gaps, v, s, owner, path, what)
    decreases v, Level(rank, s), s, 2
  {
    if s.kind.ArrayKind? && v.Arr? && s.items.Some? {
      ArrayFaults(doc, rank, gaps, v, s, at, path, what, owner);
    } else if s.kind.ObjectKind? && v.Obj? {
      ObjectFaults(doc, rank, gaps, v, s, at, owner, path, what);
    }
  }

  lemma EmptyFaults(
    doc: Doc, rank: Rank, gaps: Gaps, v: Json, s: Schema, at: seq<Step>, owner: Option<string>, path: seq<Step>,
    what: Complaint)
    requires Ranked(doc, rank) && s.ref.None? && (v == Null || v == Undefined)
    ensures Check(doc, rank, gaps, v, s, at, owner).Ok?
    ensures Fault(at + path, what) in Check(doc, rank, gaps, v, s, at, owner).value
      <==> Broken(doc, rank, gaps, v, s, owner, path, what)
  {
    Here(at, path);
  }

  lemma {:induction false} AllFaults(
    doc: Doc, rank: Rank, gaps: Gaps, v: Json, s: Schema, at: seq<Step>, owner: Option<string>, path: seq<Step>,
    what: Complaint)
    requires Ranked(doc, rank) && s.ref.None? && v != Null && v != Undefined && s.allOf.Listed?
    requires Check(doc, rank, gaps, v, s, at, owner).Ok?
    ensures Fault(at + path, what) in Check(doc, rank, gaps, v, s, at, owner).value
      <==> Broken(doc, rank, gaps, v, s, owner, path, what)
    decreases v, Level(rank, s), s, 3
  {
    PartFaults(doc, rank, gaps, v, s, 0, at, owner, path, what);
  }

  lemma AlternativeFaults(
    doc: Doc, rank: Rank, gaps: Gaps, v: Json, s: Schema, at: seq<Step>, owner: Option<string>, path: seq<Step>,
    what: Complaint)
    requires Ranked(doc, rank) && s.ref.None? && v != Null && v != Undefined
    requires !s.allOf.Listed? && (s.oneOf.Listed? || s.anyOf.Listed?)
    requires Check(doc, rank, gaps, v, s, at, owner).Ok?
    ensures Fault(at + path, what) in Check(doc, rank, gaps, v, s, at, owner).value
      <==> Broken(doc, rank, gaps, v, s, owner, path, what)
  {
    Here(at, path);
    FaultlessAny(doc, rank, gaps, v, s, 0, at, owner);
  }

  lemma {:induction false} PlainFaults(
    doc: Doc, rank: Rank, gaps: Gaps, v: Json, s: Schema, at: seq<Step>, owner: Option<string>, path: seq<Step>,
    what: Complaint)
    requires Ranked(doc, rank) && Plain(s) && v != Null && v != Undefined
    requires Check(doc, rank, gaps, v, s, at, owner).Ok?
    ensures Fault(at + path, what) in Check(doc, rank, gaps, v, s, at, owner).value
      <==> Broken(doc, rank, gaps, v, s, owner, path, what)
    decreases v, Level(rank, s), s, 3
  {
    OwnFaultsAre(v, s, at, path, what);
    InsideFaults(doc, rank, gaps, v, s, at, owner, path, what);
  }

  /** A check that ends normally reports a fault at a place under `at` exactly when the contract is so broken there. */
  lemma {:induction false} FaultsAreExactly(
    doc: Doc, rank: Rank, gaps: Gaps, v: Json, s: Schema, at: seq<Step>, owner: Option<string>, path: seq<Step>,
    what: Complaint)
    requires Ranked(doc, rank) && Check(doc, rank, gaps, v, s, at, owner).Ok?
    ensures Fault(at + path, what) in Check(doc, rank, gaps, v, s, at, owner).value
      <==> Broken(doc, rank, gaps, v, s, owner, path, what)
    decreases v, Level(rank, s), s, 4
  {
    if s.ref.Some? {
      FaultsAreExactly(doc, rank, gaps, v, doc[s.ref.value], at, s.ref, path, what);
    } else if IsEmpty(v) {
      EmptyFaults(doc, rank, gaps, v, s, at, owner, path, what);
    } else if s.allOf.Listed? {
      AllFaults(doc, rank, gaps, v, s, at, owner, path, what);
    } else if s.oneOf.Listed? || s.anyOf.Listed? {
      AlternativeFaults(doc, rank, gaps, v, s, at, owner, path, what);
    } else {
      PlainFaults(doc, rank, gaps, v, s, at, owner, path, what);
    }
  }

  // ---------- Known gaps ----------

  lemma {:induction false} FieldsEndNormally(
    doc: Doc, rank: Rank, gaps: Gaps, v: Json, s: Schema, i: nat, k: nat, at: seq<Step>, owner: Option<string>)
    requires Ranked(doc, rank) && v.Obj? && i <= k < |s.properties|
    requires FieldsFrom(doc, rank, gaps, v, s, i, at, owner).Ok?
    requires var key := s.properties[k].key; key in v.fields && !Excused(gaps, owner, key, v.fields[key])
    ensures var key := s.properties[k].key;
      Check(doc, rank, gaps, v.fields[key], s.properties[k].schema, at + [Key(key)], None).Ok?
    decreases k - i
  {
    if i < k {
      FieldsEndNormally(doc, rank, gaps, v, s, i + 1, k, at, owner);
    }
  }

  ghost predicate NoneUnder(at: seq<Step>, faults: seq<Fault>) {
    forall f :: f in faults ==> !(at <= f.at)
  }

  ghost predicate AllAmong(some: seq<Fault>, faults: seq<Fault>) {
    forall f :: f in some ==> f in faults
  }

  lemma ExcusedAddsNothing(
    doc: Doc, rank: Rank, gaps: Gaps, v: Json, s: Schema, key: string, at: seq<Step>, owner: Option<string>)
    requires Ranked(doc, rank) && Plain(s) && s.kind == ObjectKind && v.Obj? && key in v.fields
    requires Excused(gaps, owner, key, v.fields[key]) && Check(doc, rank, gaps, v, s, at, owner).Ok?
    ensures NoneUnder(at + [Key(key)], Check(doc, rank, gaps, v, s, at, owner).value)
  {
    var faults := Check(doc, rank, gaps, v, s, at, owner).value;
    forall f | f in faults ensures !(at + [Key(key)] <= f.at) {
      if at + [Key(key)] <= f.at {
        var path := f.at[|at|..];
        assert at + path == f.at && path[0] == f.at[|at|] == Key(key);
        FaultsAreExactly(doc, rank, gaps, v, s, at, owner, path, f.what);
      }
    }
  }

  lemma BrokenBelow(
    doc: Doc, rank: Rank, gaps: Gaps, v: Json, s: Schema, k: nat, owner: Option<string>, rest: seq<Step>,
    what: Complaint)
    requires Ranked(doc, rank) && Plain(s) && s.kind == ObjectKind && v.Obj? && k < |s.properties|
    requires var key := s.properties[k].key; key in v.fields && !Excused(gaps, owner, key, v.fields[key])
    requires Broken(doc, rank, gaps, v.fields[s.properties[k].key], s.properties[k].schema, None, rest, what)
    ensures Broken(doc, rank, gaps, v, s, owner, [Key(s.properties[k].key)] + rest, what)
  {
    assert ([Key(s.properties[k].key)] + rest)[1..] == rest;
  }

  lemma ChildFaultsStay(
    doc: Doc, rank: Rank, gaps: Gaps, v: Json, s: Schema, k: nat, at: seq<Step>, owner: Option<string>)
    requires Ranked(doc, rank) && Plain(s) && s.kind == ObjectKind && v.Obj? && k < |s.properties|
    requires var key := s.properties[k].key; key in v.fields && !Excused(gaps, owner, key, v.fields[key])
    requires Check(doc, rank, gaps, v, s, at, owner).Ok?
    ensures var key := s.properties[k].key;
      var own := Check(doc, rank, gaps, v.fields[key], s.properties[k].schema, at + [Key(key)], None);
      own.Ok? && AllAmong(own.value, Check(doc, rank, gaps, v, s, at, owner).value)
  {
    var key := s.properties[k].key;
    var child, below := v.fields[key], at + [Key(key)];
    FieldsEndNormally(doc, rank, gaps, v, s, 0, k, at, owner);
    FaultsAreLocated(doc, rank, gaps, child, s.properties[k].schema, below, None);
    var own := Check(doc, rank, gaps, child, s.properties[k].schema, below, None).value;
    forall f | f in own ensures f in Check(doc, rank, gaps, v, s, at, owner).value {
      assert Located(child, below, f);
      var rest := f.at[|below|..];
      assert below + rest == f.at == at + ([Key(key)] + rest);
      FaultsAreExactly(doc, rank, gaps, child, s.properties[k].schema, below, None, rest, f.what);
      BrokenBelow(doc, rank, gaps, v, s, k, owner, rest, f.what);
      FaultsAreExactly(doc, rank, gaps, v, s, at, owner, [Key(key)] + rest, f.what);
    }
  }

  /**
   * What a field that is there adds to the errors of the object: nothing under its name if it is
   * null and may be empty, or not null and may be of another type; all of its own errors otherwise.
   */
  lemma FieldContributes(
    doc: Doc, rank: Rank, gaps: Gaps, v: Json, s: Schema, k: nat, at: seq<Step>, owner: Option<string>)
    requires Ranked(doc, rank) && Plain(s) && s.kind == ObjectKind && v.Obj? && k < |s.properties|
    requires s.properties[k].key in v.fields && Check(doc, rank, gaps, v, s, at, owner).Ok?
    ensures var key := s.properties[k].key;
      var pairs := if v.fields[key] == Null then gaps.empty else gaps.kind;
      var faults := Check(doc, rank, gaps, v, s, at, owner).value;
      if owner.Some? && (owner.value, key) in pairs then NoneUnder(at + [Key(key)], faults)
      else
        var own := Check(doc, rank, gaps, v.fields[key], s.properties[k].schema, at + [Key(key)], None);
        own.Ok? && AllAmong(own.value, faults)
  {
    var key := s.properties[k].key;
    if Excused(gaps, owner, key, v.fields[key]) {
      ExcusedAddsNothing(doc, rank, gaps, v, s, key, at, owner);
    } else {
      ChildFaultsStay(doc, rank, gaps, v, s, k, at, owner);
    }
  }

  /** The schema of the document's users: an object of named fields. */
  ghost predicate DescribesUsers(doc: Doc, user: Schema) {
    && user.ref == Some("User") && "User" in doc
    && Plain(doc["User"]) && doc["User"].kind == ObjectKind && doc["User"].enum.None?
  }

  /** A user that was not deleted and has no photo: every other field meets the contract to the letter. */
  ghost predicate UndeletedUser(doc: Doc, rank: Rank, v: Json)
    requires Ranked(doc, rank) && "User" in doc
  {
    && v.Obj? && "deletedAt" in v.fields && "photo" in v.fields
    && v.fields["deletedAt"] == Null && v.fields["photo"] == Null
    && (forall key :: key in doc["User"].required ==> key in v.fields)
    && forall k :: 0 <= k < |doc["User"].properties| ==>
         var p := doc["User"].properties[k];
         p.key in v.fields && p.key != "deletedAt" && p.key != "photo" ==>
           Conforms(doc, rank, Gaps({}, {}), v.fields[p.key], p.schema, None)
  }

  lemma UndeletedUserFits(doc: Doc, rank: Rank, user: Schema, v: Json)
    requires Ranked(doc, rank) && DescribesUsers(doc, user) && UndeletedUser(doc, rank, v)
    ensures Fits(doc, rank, KNOWN_GAPS, v, doc["User"], Some("User"))
  {
    var s := doc["User"];
    forall k | 0 <= k < |s.properties| && s.properties[k].key in v.fields
      ensures Excused(KNOWN_GAPS, Some("User"), s.properties[k].key, v.fields[s.properties[k].key])
           || Conforms(doc, rank, KNOWN_GAPS, v.fields[s.properties[k].key], s.properties[k].schema, None)
    {
      if s.properties[k].key != "deletedAt" && s.properties[k].key != "photo" {
        WiderGapsAcceptMore(
          doc, rank, Gaps({}, {}), KNOWN_GAPS, v.fields[s.properties[k].key], s.properties[k].schema, None);
      }
    }
  }

  /** Such a user passes, although the contract says that neither field may be null. */
  lemma UndeletedUserIsAccepted(doc: Doc, rank: Rank, user: Schema, v: Json, at: seq<Step>, owner: Option<string>)
    requires Ranked(doc, rank) && Closed(doc) && DescribesUsers(doc, user) && UndeletedUser(doc, rank, v)
    ensures Check(doc, rank, KNOWN_GAPS, v, user, at, owner) == Ok([])
  {
    UndeletedUserFits(doc, rank, user, v);
    ClosedNeverThrows(doc, rank, KNOWN_GAPS, v, doc["User"], at, user.ref);
    FaultlessIffConforms(doc, rank, KNOWN_GAPS, v, doc["User"], at, user.ref);
  }

  /** A user whose deletion date is a number does not, unless the contract asks for one. */
  lemma NumberedDeletionIsReported(
    doc: Doc, rank: Rank, user: Schema, v: Json, k: nat, at: seq<Step>, owner: Option<string>)
    requires Ranked(doc, rank) && Closed(doc) && DescribesUsers(doc, user) && k < |doc["User"].properties|
    requires v.Obj? && "deletedAt" in v.fields && v.fields["deletedAt"].Num?
    requires var p := doc["User"].properties[k]; p.key == "deletedAt" && Plain(p.schema) && p.schema.kind == StringKind
    ensures var r := Check(doc, rank, KNOWN_GAPS, v, user, at, owner);
      r.Ok? && Fault(at + [Key("deletedAt")], WrongType) in r.value
  {
    var s, date := doc["User"], doc["User"].properties[k].schema;
    ClosedNeverThrows(doc, rank, KNOWN_GAPS, v, s, at, user.ref);
    FieldContributes(doc, rank, KNOWN_GAPS, v, s, k, at, user.ref);
    var below := at + [Key("deletedAt")];
    assert Fault(below, WrongType) in OwnFaults(v.fields["deletedAt"], date, below);
  }
}
