/**
 * The checker's reading of a schema beside that of section 4.7.24 of the OpenAPI Specification 3.0.3,
 * under which every keyword of a schema counts and `oneOf` wants exactly one match: where they agree,
 * and what is accepted beyond it.
 */
module SchemaReading {
  import opened Common
  import opened SchemaValidator

  const NO_GAPS := Gaps({}, {})

  predicate Whole(x: real) {
    x == x.Floor as real
  }

  predicate TypeHolds(v: Json, kind: Kind) {
    KindHolds(v, kind) && (kind.IntegerKind? ==> Whole(v.n))
  }

  predicate EnumLists(v: Json, s: Schema) {
    s.enum.Some? ==> v in s.enum.value
  }

  /** `v` is valid by the specification; of several kinds of branches in one schema only one is looked at. */
  ghost predicate Meets(doc: Doc, rank: Rank, v: Json, s: Schema)
    requires Ranked(doc, rank)
    decreases v, Level(rank, s), s, 1
  {
    if s.ref.Some? then s.ref.value in doc && Meets(doc, rank, v, doc[s.ref.value])
    else MeetsOwn(doc, rank, v, s) && MeetsBranches(doc, rank, v, s)
  }

  /** The keywords of the schema itself; those for arrays or objects count for every array or object. */
  ghost predicate MeetsOwn(doc: Doc, rank: Rank, v: Json, s: Schema)
    requires Ranked(doc, rank) && s.ref.None?
    decreases v, Level(rank, s), s, 0
  {
    && EnumLists(v, s)
    && TypeHolds(v, s.kind)
    && (v.Arr? && s.items.Some? ==>
      forall k :: 0 <= k < |v.items| ==> Meets(doc, rank, v.items[k], s.items.value))
    && (v.Obj? ==> HasRequired(NO_GAPS, v, s.required, None))
    && (v.Obj? ==>
      forall k :: 0 <= k < |s.properties| && s.properties[k].key in v.fields ==>
        Meets(doc, rank, v.fields[s.properties[k].key], s.properties[k].schema))
  }

  ghost predicate MeetsBranches(doc: Doc, rank: Rank, v: Json, s: Schema)
    requires Ranked(doc, rank) && s.ref.None?
    decreases v, Level(rank, s), s, 0
  {
    AllPartsAreNoHigher(rank, s);
    if s.allOf.Listed? then forall k :: 0 <= k < |Parts(s)| ==> Meets(doc, rank, v, Parts(s)[k])
    else if s.oneOf.Listed? then
      && (exists k :: 0 <= k < |Parts(s)| && Meets(doc, rank, v, Parts(s)[k]))
      && (forall j, k :: 0 <= j < k < |Parts(s)| ==>
            !(Meets(doc, rank, v, Parts(s)[j]) && Meets(doc, rank, v, Parts(s)[k])))
    else if s.anyOf.Listed? then exists k :: 0 <= k < |Parts(s)| && Meets(doc, rank, v, Parts(s)[k])
    else true
  }

  // ---------- The documents and values compared ----------

  predicate HasBranches(s: Schema) {
    s.allOf.Listed? || s.oneOf.Listed? || s.anyOf.Listed?
  }

  /** One kind of branches at most, and an enumeration of neither arrays nor objects. */
  predicate Usual(s: Schema) {
    && !(s.allOf.Listed? && (s.oneOf.Listed? || s.anyOf.Listed?)) && !(s.oneOf.Listed? && s.anyOf.Listed?)
    && (s.enum.Some? ==> forall e :: e in s.enum.value ==> !e.Arr? && !e.Obj?)
  }

  /** No keyword beside branches or of another type, no choice of exactly one, no whole numbers. */
  predicate Plain(s: Schema) {
    && Usual(s)
    && (HasBranches(s) ==> s.enum.None? && s.kind.OtherKind?)
    && (s.items.Some? ==> s.kind.ArrayKind?)
    && (s.properties != [] || s.required != [] ==> s.kind.ObjectKind?)
    && (s.oneOf.Listed? ==> |s.oneOf.parts| == 1)
    && !s.kind.IntegerKind?
  }

  /** `p` holds of the schema and of all that it contains. */
  predicate Throughout(p: Schema -> bool, s: Schema)
    decreases s
  {
    && p(s)
    && (forall k :: 0 <= k < |Parts(s)| ==> Throughout(p, Parts(s)[k]))
    && (s.items.Some? ==> Throughout(p, s.items.value))
    && (forall k :: 0 <= k < |s.properties| ==> Throughout(p, s.properties[k].schema))
  }

  ghost predicate ThroughoutDoc(p: Schema -> bool, doc: Doc) {
    forall n :: n in doc ==> Throughout(p, doc[n])
  }

  /** Null is nowhere in the value; the two readings differ on it wherever a schema has no `type` of its own. */
  predicate NullFree(v: Json)
    decreases v
  {
    match v
    case Undefined => false
    case Null => false
    case Arr(items) => forall k :: 0 <= k < |items| ==> NullFree(items[k])
    case Obj(fields) => forall key :: key in fields ==> NullFree(fields[key])
    case _ => true
  }

  // ---------- Nothing valid is refused ----------

  lemma {:induction false} ValidIsAccepted(doc: Doc, rank: Rank, v: Json, s: Schema, owner: Option<string>)
    requires Ranked(doc, rank) && ThroughoutDoc(Usual, doc) && Throughout(Usual, s) && NullFree(v)
    requires Meets(doc, rank, v, s)
    ensures Conforms(doc, rank, NO_GAPS, v, s, owner)
    decreases v, Level(rank, s), s, 1
  {
    if s.ref.Some? {
      ValidIsAccepted(doc, rank, v, doc[s.ref.value], s.ref);
    } else if HasBranches(s) {
      AllPartsAreNoHigher(rank, s);
      forall k | 0 <= k < |Parts(s)| && Meets(doc, rank, v, Parts(s)[k])
        ensures Conforms(doc, rank, NO_GAPS, v, Parts(s)[k], owner)
      {
        ValidIsAccepted(doc, rank, v, Parts(s)[k], owner);
      }
    } else {
      ValidFits(doc, rank, v, s, owner);
    }
  }

  lemma {:induction false} ValidFits(doc: Doc, rank: Rank, v: Json, s: Schema, owner: Option<string>)
    requires Ranked(doc, rank) && ThroughoutDoc(Usual, doc) && Throughout(Usual, s) && NullFree(v)
    requires s.ref.None? && MeetsOwn(doc, rank, v, s)
    ensures Fits(doc, rank, NO_GAPS, v, s, owner)
    decreases v, Level(rank, s), s, 0
  {
    if s.kind.ArrayKind? && s.items.Some? {
      forall k | 0 <= k < |v.items| ensures Conforms(doc, rank, NO_GAPS, v.items[k], s.items.value, None) {
        ValidIsAccepted(doc, rank, v.items[k], s.items.value, None);
      }
    } else if s.kind.ObjectKind? {
      forall k | 0 <= k < |s.properties| && s.properties[k].key in v.fields
        ensures Conforms(doc, rank, NO_GAPS, v.fields[s.properties[k].key], s.properties[k].schema, None)
      {
        ValidIsAccepted(doc, rank, v.fields[s.properties[k].key], s.properties[k].schema, None);
      }
    }
  }

  // ---------- Where the readings agree ----------

  lemma {:induction false} AcceptedIsValid(doc: Doc, rank: Rank, v: Json, s: Schema, owner: Option<string>)
    requires Ranked(doc, rank) && ThroughoutDoc(Plain, doc) && Throughout(Plain, s) && NullFree(v)
    requires Conforms(doc, rank, NO_GAPS, v, s, owner)
    ensures Meets(doc, rank, v, s)
    decreases v, Level(rank, s), s, 1
  {
    if s.ref.Some? {
      AcceptedIsValid(doc, rank, v, doc[s.ref.value], s.ref);
    } else if s.allOf.Listed? {
      PlainBranchesAlone(doc, rank, v, s);
      AcceptedByAll(doc, rank, v, s, owner);
    } else if HasBranches(s) {
      PlainBranchesAlone(doc, rank, v, s);
      AcceptedBySome(doc, rank, v, s, owner);
    } else {
      FittingIsValid(doc, rank, v, s, owner);
    }
  }

  lemma PlainBranchesAlone(doc: Doc, rank: Rank, v: Json, s: Schema)
    requires Ranked(doc, rank) && s.ref.None? && Plain(s) && HasBranches(s)
    ensures MeetsOwn(doc, rank, v, s)
  {
  }

  lemma {:induction false} AcceptedByAll(doc: Doc, rank: Rank, v: Json, s: Schema, owner: Option<string>)
    requires Ranked(doc, rank) && ThroughoutDoc(Plain, doc) && Throughout(Plain, s) && NullFree(v)
    requires s.ref.None? && s.allOf.Listed? && FitsAllFrom(doc, rank, NO_GAPS, v, s, 0, owner)
    ensures MeetsBranches(doc, rank, v, s)
    decreases v, Level(rank, s), s, 0
  {
    AllPartsAreNoHigher(rank, s);
    forall k | 0 <= k < |Parts(s)| ensures Meets(doc, rank, v, Parts(s)[k]) {
      AcceptedIsValid(doc, rank, v, Parts(s)[k], owner);
    }
  }

  lemma {:induction false} AcceptedBySome(doc: Doc, rank: Rank, v: Json, s: Schema, owner: Option<string>)
    requires Ranked(doc, rank) && ThroughoutDoc(Plain, doc) && Throughout(Plain, s) && NullFree(v)
    requires s.ref.None? && !s.allOf.Listed? && FitsAnyFrom(doc, rank, NO_GAPS, v, s, 0, owner)
    ensures MeetsBranches(doc, rank, v, s)
    decreases v, Level(rank, s), s, 0
  {
    AllPartsAreNoHigher(rank, s);
    var k :| 0 <= k < |Parts(s)| && Conforms(doc, rank, NO_GAPS, v, Parts(s)[k], owner);
    AcceptedIsValid(doc, rank, v, Parts(s)[k], owner);
  }

  lemma {:induction false} FittingIsValid(doc: Doc, rank: Rank, v: Json, s: Schema, owner: Option<string>)
    requires Ranked(doc, rank) && ThroughoutDoc(Plain, doc) && Throughout(Plain, s) && NullFree(v)
    requires s.ref.None? && Fits(doc, rank, NO_GAPS, v, s, owner)
    ensures MeetsOwn(doc, rank, v, s)
    decreases v, Level(rank, s), s, 0
  {
    if v.Arr? && s.items.Some? {
      forall k | 0 <= k < |v.items| ensures Meets(doc, rank, v.items[k], s.items.value) {
        AcceptedIsValid(doc, rank, v.items[k], s.items.value, None);
      }
    } else if v.Obj? {
      forall k | 0 <= k < |s.properties| && s.properties[k].key in v.fields
        ensures Meets(doc, rank, v.fields[s.properties[k].key], s.properties[k].schema)
      {
        AcceptedIsValid(doc, rank, v.fields[s.properties[k].key], s.properties[k].schema, None);
      }
    }
  }

  lemma {:induction false} PlainIsUsual(s: Schema)
    requires Throughout(Plain, s)
    ensures Throughout(Usual, s)
    decreases s
  {
    forall k | 0 <= k < |Parts(s)| ensures Throughout(Usual, Parts(s)[k]) {
      PlainIsUsual(Parts(s)[k]);
    }
    if s.items.Some? {
      PlainIsUsual(s.items.value);
    }
    forall k | 0 <= k < |s.properties| ensures Throughout(Usual, s.properties[k].schema) {
      PlainIsUsual(s.properties[k].schema);
    }
  }

  /** Over plain schemas the checker accepts exactly the valid values. */
  lemma ReadingsAgree(doc: Doc, rank: Rank, v: Json, s: Schema, owner: Option<string>)
    requires Ranked(doc, rank) && ThroughoutDoc(Plain, doc) && Throughout(Plain, s) && NullFree(v)
    ensures Conforms(doc, rank, NO_GAPS, v, s, owner) <==> Meets(doc, rank, v, s)
  {
    PlainIsUsual(s);
    forall n | n in doc ensures Throughout(Usual, doc[n]) {
      PlainIsUsual(doc[n]);
    }
    if Meets(doc, rank, v, s) {
      ValidIsAccepted(doc, rank, v, s, owner);
    }
    if Conforms(doc, rank, NO_GAPS, v, s, owner) {
      AcceptedIsValid(doc, rank, v, s, owner);
    }
  }

  // ---------- What is accepted beyond ----------

  ghost predicate Same(doc: Doc, rank: Rank, v: Json, s: Schema, owner: Option<string>)
    requires Ranked(doc, rank)
  {
    Conforms(doc, rank, NO_GAPS, v, s, owner) <==> Meets(doc, rank, v, s)
  }

  /** The readings agree on what the schema asks of its branches and of the parts of the value. */
  ghost predicate AgreesBelow(doc: Doc, rank: Rank, v: Json, s: Schema, owner: Option<string>)
    requires Ranked(doc, rank)
  {
    && (forall k :: 0 <= k < |Parts(s)| ==> Same(doc, rank, v, Parts(s)[k], owner))
    && (v.Arr? && s.items.Some? ==>
      forall k :: 0 <= k < |v.items| ==> Same(doc, rank, v.items[k], s.items.value, None))
    && (v.Obj? ==>
      forall k :: 0 <= k < |s.properties| && s.properties[k].key in v.fields ==>
        Same(doc, rank, v.fields[s.properties[k].key], s.properties[k].schema, None))
  }

  /** Two branches are valid at once. */
  ghost predicate Twice(doc: Doc, rank: Rank, v: Json, s: Schema)
    requires Ranked(doc, rank)
  {
    exists j, k :: 0 <= j < k < |Parts(s)| && Meets(doc, rank, v, Parts(s)[j]) && Meets(doc, rank, v, Parts(s)[k])
  }

  /**
   * Where nothing below differs, an accepted value is not valid exactly when it breaks a keyword
   * that stands beside branches, or meets more than one branch of `oneOf`, or is a fraction where a
   * whole number is asked for, or breaks a keyword for arrays or objects of a schema without `type`.
   */
  lemma AcceptedBeyondIff(doc: Doc, rank: Rank, v: Json, s: Schema, owner: Option<string>)
    requires Ranked(doc, rank) && s.ref.None? && Usual(s) && !IsEmpty(v)
    requires AgreesBelow(doc, rank, v, s, owner) && Conforms(doc, rank, NO_GAPS, v, s, owner)
    ensures !Meets(doc, rank, v, s) <==>
      if HasBranches(s) then !MeetsOwn(doc, rank, v, s) || (s.oneOf.Listed? && Twice(doc, rank, v, s))
      else (s.kind.IntegerKind? && v.Num? && !Whole(v.n)) || (s.kind.OtherKind? && !MeetsOwn(doc, rank, v, s))
  {
    AllPartsAreNoHigher(rank, s);
    if HasBranches(s) {
      BranchesBeyond(doc, rank, v, s, owner);
    } else {
      OwnBeyond(doc, rank, v, s, owner);
    }
  }

  lemma AllOfBeyond(doc: Doc, rank: Rank, v: Json, s: Schema, owner: Option<string>)
    requires Ranked(doc, rank) && s.ref.None? && s.allOf.Listed?
    requires AgreesBelow(doc, rank, v, s, owner) && FitsAllFrom(doc, rank, NO_GAPS, v, s, 0, owner)
    ensures MeetsBranches(doc, rank, v, s)
  {
    forall k | 0 <= k < |Parts(s)| ensures Meets(doc, rank, v, Parts(s)[k]) {
      assert Same(doc, rank, v, Parts(s)[k], owner);
    }
  }

  lemma SomeOfBeyond(doc: Doc, rank: Rank, v: Json, s: Schema, owner: Option<string>)
    requires Ranked(doc, rank) && s.ref.None?
    requires AgreesBelow(doc, rank, v, s, owner) && FitsAnyFrom(doc, rank, NO_GAPS, v, s, 0, owner)
    ensures exists k :: 0 <= k < |Parts(s)| && Meets(doc, rank, v, Parts(s)[k])
  {
    var k :| 0 <= k < |Parts(s)| && Conforms(doc, rank, NO_GAPS, v, Parts(s)[k], owner);
    assert Same(doc, rank, v, Parts(s)[k], owner);
  }

  lemma OneOfBeyond(doc: Doc, rank: Rank, v: Json, s: Schema)
    requires Ranked(doc, rank) && s.ref.None? && !s.allOf.Listed? && s.oneOf.Listed?
    requires exists k :: 0 <= k < |Parts(s)| && Meets(doc, rank, v, Parts(s)[k])
    ensures MeetsBranches(doc, rank, v, s) <==> !Twice(doc, rank, v, s)
  {
  }

  lemma BranchesBeyond(doc: Doc, rank: Rank, v: Json, s: Schema, owner: Option<string>)
    requires Ranked(doc, rank) && s.ref.None? && Usual(s) && !IsEmpty(v) && HasBranches(s)
    requires AgreesBelow(doc, rank, v, s, owner)
    requires if s.allOf.Listed? then FitsAllFrom(doc, rank, NO_GAPS, v, s, 0, owner)
             else FitsAnyFrom(doc, rank, NO_GAPS, v, s, 0, owner)
    ensures MeetsBranches(doc, rank, v, s) <==> !(s.oneOf.Listed? && Twice(doc, rank, v, s))
  {
    if s.allOf.Listed? {
      AllOfBeyond(doc, rank, v, s, owner);
    } else {
      SomeOfBeyond(doc, rank, v, s, owner);
      if s.oneOf.Listed? {
        OneOfBeyond(doc, rank, v, s);
      }
    }
  }

  lemma OwnBeyond(doc: Doc, rank: Rank, v: Json, s: Schema, owner: Option<string>)
    requires Ranked(doc, rank) && s.ref.None? && Usual(s) && !IsEmpty(v) && !HasBranches(s)
    requires AgreesBelow(doc, rank, v, s, owner) && Fits(doc, rank, NO_GAPS, v, s, owner)
    ensures MeetsOwn(doc, rank, v, s) <==>
      !((s.kind.IntegerKind? && v.Num? && !Whole(v.n)) || (s.kind.OtherKind? && !MeetsOwn(doc, rank, v, s)))
  {
    if v.Arr? && s.kind.ArrayKind? && s.items.Some? {
      forall k | 0 <= k < |v.items| ensures Meets(doc, rank, v.items[k], s.items.value) {
        assert Same(doc, rank, v.items[k], s.items.value, None);
      }
    }
    if v.Obj? && s.kind.ObjectKind? {
      forall k | 0 <= k < |s.properties| && s.properties[k].key in v.fields
        ensures Meets(doc, rank, v.fields[s.properties[k].key], s.properties[k].schema)
      {
        assert Same(doc, rank, v.fields[s.properties[k].key], s.properties[k].schema, None);
      }
    }
  }

  /** A choice of exactly one. */
  function ExactlyOneOf(parts: seq<Schema>): Schema {
    Schema(None, OtherKind, false, None, None, [], [], Unlisted, Listed(parts), Unlisted)
  }

  /** A value that one branch accepts is accepted when the branch is listed twice, where none is valid. */
  lemma TwoMatchesAreAccepted(doc: Doc, rank: Rank, v: Json, p: Schema, owner: Option<string>)
    requires Ranked(doc, rank) && !IsEmpty(v)
    requires Conforms(doc, rank, NO_GAPS, v, p, owner) && Meets(doc, rank, v, p)
    ensures var s := ExactlyOneOf([p, p]);
      Conforms(doc, rank, NO_GAPS, v, s, owner) && !Meets(doc, rank, v, s)
  {
    var s := ExactlyOneOf([p, p]);
    AllPartsAreNoHigher(rank, s);
    assert Parts(s)[0] == p && Parts(s)[1] == p;
  }
}
