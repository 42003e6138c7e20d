/** The fake backend's response validator: a recursive checker over a graph of named schemas. */
module SchemaValidator {
  import opened Common

  datatype Json =
    | Undefined
    | Null
    | Bool(b: bool)
    | Num(n: real)
    | Str(s: string)
    | Arr(items: seq<Json>)
    | Obj(fields: map<string, Json>)

  datatype Kind = StringKind | NumberKind | IntegerKind | BooleanKind | ArrayKind | ObjectKind | OtherKind

  datatype Property = Property(key: string, schema: Schema)

  /** `ref` holds the schema name left of `$ref` once its fixed prefix is gone; an empty `$ref` is None. */
  datatype Schema = Schema(
    ref: Option<string>,
    kind: Kind,
    nullable: bool,
    enum: Option<seq<Json>>,
    items: Option<Schema>,
    properties: seq<Property>,
    required: seq<string>,
    allOf: Branches,
    oneOf: Branches,
    anyOf: Branches
  )

  /** An `allOf`, `oneOf` or `anyOf` list, or none at all. */
  datatype Branches = Unlisted | Listed(parts: seq<Schema>)

  type Doc = map<string, Schema>

  /** Tolerated `Owner.key` pairs: absent or null although required, and mistyped by the contract. */
  datatype Gaps = Gaps(empty: set<(string, string)>, kind: set<(string, string)>)

  const KNOWN_GAPS := Gaps(
    {("User", "deletedAt"), ("User", "photo")},
    {("StudentEnrollment", "schoolId"), ("StudentEnrollment", "teacherId"),
     ("StudentEnrollment", "completedAt"), ("StudentEnrollment", "schoolAdminId"),
     ("StudentWeekResponseDto", "weekId")})

  datatype Step = Key(key: string) | Index(i: nat)
  datatype Complaint = NotNullable | NoAlternative | NotInEnum | WrongType | Missing
  datatype Fault = Fault(at: seq<Step>, what: Complaint)

  /** `Unknown` stands for the exception thrown on a reference to no schema. */
  datatype Outcome<T> = Ok(value: T) | Unknown(name: string)

  // ---------- The schema graph ----------

  /** `schema.oneOf ?? schema.anyOf` */
  function Alternatives(s: Schema): Branches {
    if s.oneOf.Listed? then s.oneOf else s.anyOf
  }

  /** The sub-schemas that see the same value as `s` does. */
  function Parts(s: Schema): (parts: seq<Schema>)
    ensures forall i :: 0 <= i < |parts| ==> parts[i] < s
  {
    if s.allOf.Listed? then s.allOf.parts
    else if Alternatives(s).Listed? then Alternatives(s).parts
    else []
  }

  type Rank = map<string, nat>

  function Level(rank: Rank, s: Schema): nat
    decreases s
  {
    if s.ref.Some? then (if s.ref.value in rank then rank[s.ref.value] + 1 else 0)
    else LevelFrom(rank, s, 0)
  }

  function LevelFrom(rank: Rank, s: Schema, i: nat): nat
    requires i <= |Parts(s)|
    decreases s, |Parts(s)| - i
  {
    if i == |Parts(s)| then 0 else Max(Level(rank, Parts(s)[i]), LevelFrom(rank, s, i + 1))
  }

  /** References that consume no part of the value lead to schemas of strictly smaller rank. */
  ghost predicate Ranked(doc: Doc, rank: Rank) {
    forall n :: n in doc ==> n in rank && Level(rank, doc[n]) <= rank[n]
  }

  lemma {:induction false} PartsAreNoHigher(rank: Rank, s: Schema, i: nat, k: nat)
    requires i <= k < |Parts(s)|
    ensures Level(rank, Parts(s)[k]) <= LevelFrom(rank, s, i)
    decreases k - i
  {
    if i < k {
      PartsAreNoHigher(rank, s, i + 1, k);
    }
  }

  // ---------- The checker ----------

  predicate IsEmpty(v: Json) {
    v.Null? || v.Undefined?
  }

  /** `enum.includes(value)`: objects and arrays are compared by identity, so none is ever found. */
  predicate Included(v: Json, values: seq<Json>) {
    !v.Arr? && !v.Obj? && v in values
  }

  predicate Tolerated(pairs: set<(string, string)>, owner: Option<string>, key: string) {
    owner.Some? && (owner.value, key) in pairs
  }

  predicate Skipped(gaps: Gaps, owner: Option<string>, key: string, child: Json) {
    if child.Null? then Tolerated(gaps.empty, owner, key) else Tolerated(gaps.kind, owner, key)
  }

  predicate EnumHolds(v: Json, s: Schema) {
    s.enum.Some? ==> Included(v, s.enum.value)
  }

  predicate KindHolds(v: Json, kind: Kind) {
    match kind
    case StringKind => v.Str?
    case NumberKind => v.Num?
    case IntegerKind => v.Num?
    case BooleanKind => v.Bool?
    case ArrayKind => v.Arr?
    case ObjectKind => v.Obj?
    case OtherKind => true
  }

  function OwnFaults(v: Json, s: Schema, at: seq<Step>): seq<Fault> {
    (if EnumHolds(v, s) then [] else [Fault(at, NotInEnum)]) +
    (if KindHolds(v, s.kind) then [] else [Fault(at, WrongType)])
  }

  function MissingFaults(gaps: Gaps, v: Json, keys: seq<string>, at: seq<Step>, owner: Option<string>): seq<Fault>
    requires v.Obj?
  {
    if keys == [] then []
    else
      (if keys[0] in v.fields || Tolerated(gaps.empty, owner, keys[0]) then []
       else [Fault(at + [Key(keys[0])], Missing)]) +
      MissingFaults(gaps, v, keys[1..], at, owner)
  }

  function Joined(a: Outcome<seq<Fault>>, b: Outcome<seq<Fault>>): Outcome<seq<Fault>> {
    if a.Unknown? then a else if b.Unknown? then b else Ok(a.value + b.value)
  }

  function Check(doc: Doc, ghost rank: Rank, gaps: Gaps, v: Json, s: Schema, at: seq<Step>, owner: Option<string>)
    : Outcome<seq<Fault>>
    requires Ranked(doc, rank)
    decreases v, Level(rank, s), s
  {
    if s.ref.Some? then
      if s.ref.value in doc then Check(doc, rank, gaps, v, doc[s.ref.value], at, s.ref)
      else Unknown(s.ref.value)
    else if IsEmpty(v) then Ok(if s.nullable then [] else [Fault(at, NotNullable)])
    else if s.allOf.Listed? then AllFrom(doc, rank, gaps, v, s, 0, at, owner)
    else if Alternatives(s).Listed? then
      var any := AnyFrom(doc, rank, gaps, v, s, 0, at, owner);
      if any.Unknown? then Unknown(any.name) else Ok(if any.value then [] else [Fault(at, NoAlternative)])
    else
      Joined(Ok(OwnFaults(v, s, at)), Inside(doc, rank, gaps, v, s, at, owner))
  }

  /** The `flatMap` over `allOf`, from part `i` on. */
  function AllFrom(
      doc: Doc, ghost rank: Rank, gaps: Gaps, v: Json, s: Schema, i: nat, at: seq<Step>, owner: Option<string>)
    : Outcome<seq<Fault>>
    requires Ranked(doc, rank) && s.ref.None? && i <= |Parts(s)|
    decreases v, Level(rank, s), s, 0, |Parts(s)| - i
  {
    if i == |Parts(s)| then Ok([])
    else
      PartsAreNoHigher(rank, s, 0, i);
      Joined(Check(doc, rank, gaps, v, Parts(s)[i], at, owner), AllFrom(doc, rank, gaps, v, s, i + 1, at, owner))
  }

  /** Whether some alternative from part `i` on leaves no error; every one of them is run. */
  function AnyFrom(
      doc: Doc, ghost rank: Rank, gaps: Gaps, v: Json, s: Schema, i: nat, at: seq<Step>, owner: Option<string>)
    : Outcome<bool>
    requires Ranked(doc, rank) && s.ref.None? && i <= |Parts(s)|
    decreases v, Level(rank, s), s, 0, |Parts(s)| - i
  {
    if i == |Parts(s)| then Ok(false)
    else
      PartsAreNoHigher(rank, s, 0, i);
      var first := Check(doc, rank, gaps, v, Parts(s)[i], at, owner);
      var rest := AnyFrom(doc, rank, gaps, v, s, i + 1, at, owner);
      if first.Unknown? then Unknown(first.name)
      else if rest.Unknown? then rest
      else Ok(first.value == [] || rest.value)
  }

  /** The errors of the items or properties of `v`. */
  function Inside(doc: Doc, ghost rank: Rank, gaps: Gaps, v: Json, s: Schema, at: seq<Step>, owner: Option<string>)
    : Outcome<seq<Fault>>
    requires Ranked(doc, rank)
    decreases v, Level(rank, s), s, 1, 0
  {
    if s.kind.ArrayKind? && v.Arr? && s.items.Some? then ItemsFrom(doc, rank, gaps, v, s, 0, at)
    else if s.kind.ObjectKind? && v.Obj? then
      Joined(Ok(MissingFaults(gaps, v, s.required, at, owner)), FieldsFrom(doc, rank, gaps, v, s, 0, at, owner))
    else Ok([])
  }

  function ItemsFrom(doc: Doc, ghost rank: Rank, gaps: Gaps, v: Json, s: Schema, i: nat, at: seq<Step>)
    : Outcome<seq<Fault>>
    requires Ranked(doc, rank) && v.Arr? && s.items.Some? && i <= |v.items|
    decreases v, 0, s, 0, |v.items| - i
  {
    if i == |v.items| then Ok([])
    else
      Joined(Check(doc, rank, gaps, v.items[i], s.items.value, at + [Index(i)], None),
             ItemsFrom(doc, rank, gaps, v, s, i + 1, at))
  }

  function FieldsFrom(
      doc: Doc, ghost rank: Rank, gaps: Gaps, v: Json, s: Schema, i: nat, at: seq<Step>, owner: Option<string>)
    : Outcome<seq<Fault>>
    requires Ranked(doc, rank) && v.Obj? && i <= |s.properties|
    decreases v, 0, s, 0, |s.properties| - i
  {
    if i == |s.properties| then Ok([])
    else
      var key := s.properties[i].key;
      Joined(
        if key !in v.fields || Skipped(gaps, owner, key, v.fields[key]) then Ok([])
        else Check(doc, rank, gaps, v.fields[key], s.properties[i].schema, at + [Key(key)], None),
        FieldsFrom(doc, rank, gaps, v, s, i + 1, at, owner))
  }

  // ---------- What it means to conform ----------

  lemma AllPartsAreNoHigher(rank: Rank, s: Schema)
    requires s.ref.None?
    ensures forall k :: 0 <= k < |Parts(s)| ==> Level(rank, Parts(s)[k]) <= Level(rank, s)
  {
    forall k | 0 <= k < |Parts(s)| ensures Level(rank, Parts(s)[k]) <= Level(rank, s) {
      PartsAreNoHigher(rank, s, 0, k);
    }
  }

  /** `v` meets the contract `s`, read inside the named schema `owner`. */
  ghost predicate Conforms(doc: Doc, rank: Rank, gaps: Gaps, v: Json, s: Schema, owner: Option<string>)
    requires Ranked(doc, rank)
    decreases v, Level(rank, s), s
  {
    if s.ref.Some? then s.ref.value in doc && Conforms(doc, rank, gaps, v, doc[s.ref.value], s.ref)
    else if v == Null || v == Undefined then s.nullable
    else if s.allOf.Listed? then FitsAllFrom(doc, rank, gaps, v, s, 0, owner)
    else if Alternatives(s).Listed? then FitsAnyFrom(doc, rank, gaps, v, s, 0, owner)
    else Fits(doc, rank, gaps, v, s, owner)
  }

  ghost predicate FitsAllFrom(
    doc: Doc, rank: Rank, gaps: Gaps, v: Json, s: Schema, i: nat, owner: Option<string>)
    requires Ranked(doc, rank) && s.ref.None?
    decreases v, Level(rank, s), s, 0
  {
    AllPartsAreNoHigher(rank, s);
    forall k :: i <= k < |Parts(s)| ==> Conforms(doc, rank, gaps, v, Parts(s)[k], owner)
  }

  ghost predicate FitsAnyFrom(
    doc: Doc, rank: Rank, gaps: Gaps, v: Json, s: Schema, i: nat, owner: Option<string>)
    requires Ranked(doc, rank) && s.ref.None?
    decreases v, Level(rank, s), s, 0
  {
    AllPartsAreNoHigher(rank, s);
    exists k :: i <= k < |Parts(s)| && Conforms(doc, rank, gaps, v, Parts(s)[k], owner)
  }

  /** Whether a value of type `kind` could be `v`. */
  ghost predicate HasKind(v: Json, kind: Kind) {
    && (kind == StringKind ==> v.Str?)
    && (kind == NumberKind || kind == IntegerKind ==> v.Num?)
    && (kind == BooleanKind ==> v.Bool?)
    && (kind == ArrayKind ==> v.Arr?)
    && (kind == ObjectKind ==> v.Obj?)
  }

  /** A known gap: the field may be null where the contract says it may not, or be of another type. */
  ghost predicate Excused(gaps: Gaps, owner: Option<string>, key: string, child: Json) {
    && owner.Some?
    && (child == Null ==> (owner.value, key) in gaps.empty)
    && (child != Null ==> (owner.value, key) in gaps.kind)
  }

  /** The part of `Conforms` for a schema that neither refers nor combines. */
  ghost predicate Fits(doc: Doc, rank: Rank, gaps: Gaps, v: Json, s: Schema, owner: Option<string>)
    requires Ranked(doc, rank)
    decreases v, Level(rank, s), s, 0
  {
    && (s.enum.Some? ==> v in s.enum.value && !v.Arr? && !v.Obj?)
    && HasKind(v, s.kind)
    && (s.kind.ArrayKind? && s.items.Some? ==>
      forall k :: 0 <= k < |v.items| ==> Conforms(doc, rank, gaps, v.items[k], s.items.value, None))
    && (s.kind.ObjectKind? ==> HasRequired(gaps, v, s.required, owner))
    && (s.kind.ObjectKind? ==>
      forall k :: 0 <= k < |s.properties| && s.properties[k].key in v.fields ==>
        || Excused(gaps, owner, s.properties[k].key, v.fields[s.properties[k].key])
        || Conforms(doc, rank, gaps, v.fields[s.properties[k].key], s.properties[k].schema, None))
  }

  ghost predicate HasRequired(gaps: Gaps, v: Json, keys: seq<string>, owner: Option<string>)
    requires v.Obj?
  {
    forall k :: k in keys ==> k in v.fields || (owner.Some? && (owner.value, k) in gaps.empty)
  }

  lemma {:induction false} NoneMissing(gaps: Gaps, v: Json, keys: seq<string>, at: seq<Step>, owner: Option<string>)
    requires v.Obj?
    ensures MissingFaults(gaps, v, keys, at, owner) == [] <==> HasRequired(gaps, v, keys, owner)
  {
    if keys != [] {
      NoneMissing(gaps, v, keys[1..], at, owner);
      assert forall k :: k in keys <==> k == keys[0] || k in keys[1..];
    }
  }

  /** A check that ends normally finds no fault exactly in the values that conform. */
  lemma {:induction false} FaultlessIffConforms(
    doc: Doc, rank: Rank, gaps: Gaps, v: Json, s: Schema, at: seq<Step>, owner: Option<string>)
    requires Ranked(doc, rank) && Check(doc, rank, gaps, v, s, at, owner).Ok?
    ensures Check(doc, rank, gaps, v, s, at, owner).value == [] <==> Conforms(doc, rank, gaps, v, s, owner)
    decreases v, Level(rank, s), s
  {
    if s.ref.Some? {
      FaultlessIffConforms(doc, rank, gaps, v, doc[s.ref.value], at, s.ref);
    } else if IsEmpty(v) {
    } else if s.allOf.Listed? {
      FaultlessAll(doc, rank, gaps, v, s, 0, at, owner);
    } else if Alternatives(s).Listed? {
      FaultlessAny(doc, rank, gaps, v, s, 0, at, owner);
    } else {
      FaultlessInside(doc, rank, gaps, v, s, at, owner);
    }
  }

  lemma {:induction false} FaultlessInside(
    doc: Doc, rank: Rank, gaps: Gaps, v: Json, s: Schema, at: seq<Step>, owner: Option<string>)
    requires Ranked(doc, rank) && Inside(doc, rank, gaps, v, s, at, owner).Ok?
    ensures OwnFaults(v, s, at) == [] && Inside(doc, rank, gaps, v, s, at, owner).value == []
      <==> Fits(doc, rank, gaps, v, s, owner)
    decreases v, Level(rank, s), s, 1
  {
    if s.kind.ArrayKind? && v.Arr? && s.items.Some? {
      FaultlessItems(doc, rank, gaps, v, s, 0, at);
    } else if s.kind.ObjectKind? && v.Obj? {
      NoneMissing(gaps, v, s.required, at, owner);
      FaultlessFields(doc, rank, gaps, v, s, 0, at, owner);
    }
  }

  lemma {:induction false} FaultlessAll(
    doc: Doc, rank: Rank, gaps: Gaps, v: Json, s: Schema, i: nat, at: seq<Step>, owner: Option<string>)
    requires Ranked(doc, rank) && s.ref.None? && i <= |Parts(s)|
    requires AllFrom(doc, rank, gaps, v, s, i, at, owner).Ok?
    ensures AllFrom(doc, rank, gaps, v, s, i, at, owner).value == [] <==>
      FitsAllFrom(doc, rank, gaps, v, s, i, owner)
    decreases v, Level(rank, s), s, 0, |Parts(s)| - i
  {
    if i < |Parts(s)| {
      PartsAreNoHigher(rank, s, 0, i);
      FaultlessIffConforms(doc, rank, gaps, v, Parts(s)[i], at, owner);
      FaultlessAll(doc, rank, gaps, v, s, i + 1, at, owner);
    }
  }

  lemma {:induction false} FaultlessAny(
    doc: Doc, rank: Rank, gaps: Gaps, v: Json, s: Schema, i: nat, at: seq<Step>, owner: Option<string>)
    requires Ranked(doc, rank) && s.ref.None? && i <= |Parts(s)|
    requires AnyFrom(doc, rank, gaps, v, s, i, at, owner).Ok?
    ensures AnyFrom(doc, rank, gaps, v, s, i, at, owner).value <==>
      FitsAnyFrom(doc, rank, gaps, v, s, i, owner)
    decreases v, Level(rank, s), s, 0, |Parts(s)| - i
  {
    if i < |Parts(s)| {
      PartsAreNoHigher(rank, s, 0, i);
      FaultlessIffConforms(doc, rank, gaps, v, Parts(s)[i], at, owner);
      FaultlessAny(doc, rank, gaps, v, s, i + 1, at, owner);
      FitsAnyStep(doc, rank, gaps, v, s, i, owner);
    }
  }

  lemma FitsAnyStep(doc: Doc, rank: Rank, gaps: Gaps, v: Json, s: Schema, i: nat, owner: Option<string>)
    requires Ranked(doc, rank) && s.ref.None? && i < |Parts(s)|
    ensures FitsAnyFrom(doc, rank, gaps, v, s, i, owner)
      <==> Conforms(doc, rank, gaps, v, Parts(s)[i], owner) || FitsAnyFrom(doc, rank, gaps, v, s, i + 1, owner)
  {
  }

  lemma {:induction false} FaultlessItems(
    doc: Doc, rank: Rank, gaps: Gaps, v: Json, s: Schema, i: nat, at: seq<Step>)
    requires Ranked(doc, rank) && v.Arr? && s.items.Some? && i <= |v.items|
    requires ItemsFrom(doc, rank, gaps, v, s, i, at).Ok?
    ensures ItemsFrom(doc, rank, gaps, v, s, i, at).value == [] <==>
      forall k :: i <= k < |v.items| ==> Conforms(doc, rank, gaps, v.items[k], s.items.value, None)
    decreases v, 0, s, 0, |v.items| - i
  {
    if i < |v.items| {
      FaultlessIffConforms(doc, rank, gaps, v.items[i], s.items.value, at + [Index(i)], None);
      FaultlessItems(doc, rank, gaps, v, s, i + 1, at);
    }
  }

  lemma {:induction false} FaultlessFields(
    doc: Doc, rank: Rank, gaps: Gaps, v: Json, s: Schema, i: nat, at: seq<Step>, owner: Option<string>)
    requires Ranked(doc, rank) && v.Obj? && i <= |s.properties|
    requires FieldsFrom(doc, rank, gaps, v, s, i, at, owner).Ok?
    ensures FieldsFrom(doc, rank, gaps, v, s, i, at, owner).value == [] <==>
      forall k :: i <= k < |s.properties| && s.properties[k].key in v.fields ==>
        || Excused(gaps, owner, s.properties[k].key, v.fields[s.properties[k].key])
        || Conforms(doc, rank, gaps, v.fields[s.properties[k].key], s.properties[k].schema, None)
    decreases v, 0, s, 0, |s.properties| - i
  {
    if i < |s.properties| {
      var key := s.properties[i].key;
      if key in v.fields && !Skipped(gaps, owner, key, v.fields[key]) {
        FaultlessIffConforms(doc, rank, gaps, v.fields[key], s.properties[i].schema, at + [Key(key)], None);
      }
      FaultlessFields(doc, rank, gaps, v, s, i + 1, at, owner);
    }
  }

  ghost predicate MeetsAll(doc: Doc, rank: Rank, gaps: Gaps, v: Json, parts: seq<Schema>, owner: Option<string>)
    requires Ranked(doc, rank)
  {
    forall k :: 0 <= k < |parts| ==> Conforms(doc, rank, gaps, v, parts[k], owner)
  }

  ghost predicate MeetsOne(doc: Doc, rank: Rank, gaps: Gaps, v: Json, parts: seq<Schema>, owner: Option<string>)
    requires Ranked(doc, rank)
  {
    exists k :: 0 <= k < |parts| && Conforms(doc, rank, gaps, v, parts[k], owner)
  }

  lemma PartsMeet(doc: Doc, rank: Rank, gaps: Gaps, v: Json, s: Schema, owner: Option<string>)
    requires Ranked(doc, rank) && s.ref.None?
    ensures FitsAllFrom(doc, rank, gaps, v, s, 0, owner) <==> MeetsAll(doc, rank, gaps, v, Parts(s), owner)
    ensures FitsAnyFrom(doc, rank, gaps, v, s, 0, owner) <==> MeetsOne(doc, rank, gaps, v, Parts(s), owner)
  {
  }

  /** Which list of sub-schemas decides: `allOf`, all of whose parts must be met, before `oneOf` before `anyOf`. */
  lemma BranchesDecide(doc: Doc, rank: Rank, gaps: Gaps, v: Json, s: Schema, owner: Option<string>)
    requires Ranked(doc, rank) && s.ref.None? && v != Null && v != Undefined
    ensures Conforms(doc, rank, gaps, v, s, owner) <==>
      if s.allOf.Listed? then MeetsAll(doc, rank, gaps, v, s.allOf.parts, owner)
      else if s.oneOf.Listed? then MeetsOne(doc, rank, gaps, v, s.oneOf.parts, owner)
      else if s.anyOf.Listed? then MeetsOne(doc, rank, gaps, v, s.anyOf.parts, owner)
      else Fits(doc, rank, gaps, v, s, owner)
  {
    PartsMeet(doc, rank, gaps, v, s, owner);
  }

  // ---------- No reference is left dangling ----------

  /** Every reference the checker could follow from `s` itself names a schema of the document. */
  ghost predicate Known(doc: Doc, s: Schema)
    decreases s
  {
    if s.ref.Some? then s.ref.value in doc
    else
      && (forall k :: 0 <= k < |Parts(s)| ==> Known(doc, Parts(s)[k]))
      && (s.items.Some? ==> Known(doc, s.items.value))
      && (forall k :: 0 <= k < |s.properties| ==> Known(doc, s.properties[k].schema))
  }

  ghost predicate Closed(doc: Doc) {
    forall n :: n in doc ==> Known(doc, doc[n])
  }

  /** Over a closed document no value makes the checker throw. */
  lemma {:induction false} ClosedNeverThrows(
    doc: Doc, rank: Rank, gaps: Gaps, v: Json, s: Schema, at: seq<Step>, owner: Option<string>)
    requires Ranked(doc, rank) && Closed(doc) && Known(doc, s)
    ensures Check(doc, rank, gaps, v, s, at, owner).Ok?
    decreases v, Level(rank, s), s
  {
    if s.ref.Some? {
      ClosedNeverThrows(doc, rank, gaps, v, doc[s.ref.value], at, s.ref);
    } else if IsEmpty(v) {
    } else if s.allOf.Listed? || Alternatives(s).Listed? {
      PartsNeverThrow(doc, rank, gaps, v, s, 0, at, owner);
    } else if s.kind.ArrayKind? && v.Arr? && s.items.Some? {
      ItemsNeverThrow(doc, rank, gaps, v, s, 0, at);
    } else if s.kind.ObjectKind? && v.Obj? {
      FieldsNeverThrow(doc, rank, gaps, v, s, 0, at, owner);
    }
  }

  lemma {:induction false} PartsNeverThrow(
    doc: Doc, rank: Rank, gaps: Gaps, v: Json, s: Schema, i: nat, at: seq<Step>, owner: Option<string>)
    requires Ranked(doc, rank) && Closed(doc) && Known(doc, s) && s.ref.None? && i <= |Parts(s)|
    ensures AllFrom(doc, rank, gaps, v, s, i, at, owner).Ok?
    ensures AnyFrom(doc, rank, gaps, v, s, i, at, owner).Ok?
    decreases v, Level(rank, s), s, 0, |Parts(s)| - i
  {
    if i < |Parts(s)| {
      PartsAreNoHigher(rank, s, 0, i);
      ClosedNeverThrows(doc, rank, gaps, v, Parts(s)[i], at, owner);
      PartsNeverThrow(doc, rank, gaps, v, s, i + 1, at, owner);
    }
  }

  lemma {:induction false} ItemsNeverThrow(
    doc: Doc, rank: Rank, gaps: Gaps, v: Json, s: Schema, i: nat, at: seq<Step>)
    requires Ranked(doc, rank) && Closed(doc) && Known(doc, s)
    requires s.ref.None? && v.Arr? && s.items.Some? && i <= |v.items|
    ensures ItemsFrom(doc, rank, gaps, v, s, i, at).Ok?
    decreases v, 0, s, 0, |v.items| - i
  {
    if i < |v.items| {
      ClosedNeverThrows(doc, rank, gaps, v.items[i], s.items.value, at + [Index(i)], None);
      ItemsNeverThrow(doc, rank, gaps, v, s, i + 1, at);
    }
  }

  lemma {:induction false} FieldsNeverThrow(
    doc: Doc, rank: Rank, gaps: Gaps, v: Json, s: Schema, i: nat, at: seq<Step>, owner: Option<string>)
    requires Ranked(doc, rank) && Closed(doc) && Known(doc, s)
    requires s.ref.None? && v.Obj? && i <= |s.properties|
    ensures FieldsFrom(doc, rank, gaps, v, s, i, at, owner).Ok?
    decreases v, 0, s, 0, |s.properties| - i
  {
    if i < |s.properties| {
      var key := s.properties[i].key;
      if key in v.fields {
        ClosedNeverThrows(doc, rank, gaps, v.fields[key], s.properties[i].schema, at + [Key(key)], None);
      }
      FieldsNeverThrow(doc, rank, gaps, v, s, i + 1, at, owner);
    }
  }

  // ---------- Where the faults are ----------

  /** `path` leads from `v` to a place that `what` can be said of: for a missing field, one step off the value. */
  predicate Leads(v: Json, path: seq<Step>, what: Complaint)
    decreases path
  {
    if path == [] then !what.Missing? && (what.NotNullable? ==> IsEmpty(v))
    else
      match path[0]
      case Key(k) =>
        v.Obj? && if k in v.fields then Leads(v.fields[k], path[1..], what) else what.Missing? && |path| == 1
      case Index(i) => v.Arr? && i < |v.items| && Leads(v.items[i], path[1..], what)
  }

  ghost predicate Located(v: Json, at: seq<Step>, f: Fault) {
    at <= f.at && Leads(v, f.at[|at|..], f.what)
  }

  ghost predicate AllLocated(v: Json, at: seq<Step>, faults: seq<Fault>) {
    forall f :: f in faults ==> Located(v, at, f)
  }

  function Child(v: Json, step: Step): Option<Json> {
    match step
    case Key(k) => if v.Obj? && k in v.fields then Some(v.fields[k]) else None
    case Index(i) => if v.Arr? && i < |v.items| then Some(v.items[i]) else None
  }

  lemma ChildFaultsAreLocated(v: Json, step: Step, at: seq<Step>, faults: seq<Fault>)
    requires Child(v, step).Some? && AllLocated(Child(v, step).value, at + [step], faults)
    ensures AllLocated(v, at, faults)
  {
    forall f | f in faults ensures Located(v, at, f) {
      assert Located(Child(v, step).value, at + [step], f);
      assert f.at[|at|..][0] == step;
      assert f.at[|at|..][1..] == f.at[|at + [step]|..];
    }
  }

  lemma LocatedConcat(v: Json, at: seq<Step>, a: Outcome<seq<Fault>>, b: Outcome<seq<Fault>>)
    requires Joined(a, b).Ok?
    requires AllLocated(v, at, a.value) && AllLocated(v, at, b.value)
    ensures AllLocated(v, at, Joined(a, b).value)
  {
  }

  lemma LocatedHere(v: Json, at: seq<Step>, what: Complaint)
    requires Leads(v, [], what)
    ensures AllLocated(v, at, [Fault(at, what)])
  {
    assert at[|at|..] == [];
  }

  lemma {:induction false} MissingAreLocated(
      gaps: Gaps, v: Json, keys: seq<string>, at: seq<Step>, owner: Option<string>)
    requires v.Obj?
    ensures AllLocated(v, at, MissingFaults(gaps, v, keys, at, owner))
  {
    if keys != [] {
      MissingAreLocated(gaps, v, keys[1..], at, owner);
      assert (at + [Key(keys[0])])[|at|..] == [Key(keys[0])];
    }
  }

  /** Each fault names a place under `at`, and that place is in the value (or is the field it lacks). */
  lemma {:induction false} FaultsAreLocated(
    doc: Doc, rank: Rank, gaps: Gaps, v: Json, s: Schema, at: seq<Step>, owner: Option<string>)
    requires Ranked(doc, rank) && Check(doc, rank, gaps, v, s, at, owner).Ok?
    ensures AllLocated(v, at, Check(doc, rank, gaps, v, s, at, owner).value)
    decreases v, Level(rank, s), s
  {
    if s.ref.Some? {
      FaultsAreLocated(doc, rank, gaps, v, doc[s.ref.value], at, s.ref);
    } else if IsEmpty(v) {
      LocatedHere(v, at, NotNullable);
    } else if s.allOf.Listed? {
      PartFaultsAreLocated(doc, rank, gaps, v, s, 0, at, owner);
    } else if Alternatives(s).Listed? {
      LocatedHere(v, at, NoAlternative);
    } else {
      LocatedHere(v, at, NotInEnum);
      LocatedHere(v, at, WrongType);
      InsideFaultsAreLocated(doc, rank, gaps, v, s, at, owner);
      LocatedConcat(v, at, Ok(OwnFaults(v, s, at)), Inside(doc, rank, gaps, v, s, at, owner));
    }
  }

  lemma {:induction false} InsideFaultsAreLocated(
    doc: Doc, rank: Rank, gaps: Gaps, v: Json, s: Schema, at: seq<Step>, owner: Option<string>)
    requires Ranked(doc, rank) && Inside(doc, rank, gaps, v, s, at, owner).Ok?
    ensures AllLocated(v, at, Inside(doc, rank, gaps, v, s, at, owner).value)
    decreases v, Level(rank, s), s, 1
  {
    if s.kind.ArrayKind? && v.Arr? && s.items.Some? {
      ItemFaultsAreLocated(doc, rank, gaps, v, s, 0, at);
    } else if s.kind.ObjectKind? && v.Obj? {
      MissingAreLocated(gaps, v, s.required, at, owner);
      FieldFaultsAreLocated(doc, rank, gaps, v, s, 0, at, owner);
      LocatedConcat(v, at, Ok(MissingFaults(gaps, v, s.required, at, owner)),
                    FieldsFrom(doc, rank, gaps, v, s, 0, at, owner));
    }
  }

  lemma {:induction false} PartFaultsAreLocated(
    doc: Doc, rank: Rank, gaps: Gaps, v: Json, s: Schema, i: nat, at: seq<Step>, owner: Option<string>)
    requires Ranked(doc, rank) && s.ref.None? && i <= |Parts(s)|
    requires AllFrom(doc, rank, gaps, v, s, i, at, owner).Ok?
    ensures AllLocated(v, at, AllFrom(doc, rank, gaps, v, s, i, at, owner).value)
    decreases v, Level(rank, s), s, 0, |Parts(s)| - i
  {
    if i < |Parts(s)| {
      PartsAreNoHigher(rank, s, 0, i);
      FaultsAreLocated(doc, rank, gaps, v, Parts(s)[i], at, owner);
      PartFaultsAreLocated(doc, rank, gaps, v, s, i + 1, at, owner);
      LocatedConcat(v, at, Check(doc, rank, gaps, v, Parts(s)[i], at, owner),
                    AllFrom(doc, rank, gaps, v, s, i + 1, at, owner));
    }
  }

  lemma {:induction false} ItemFaultsAreLocated(
    doc: Doc, rank: Rank, gaps: Gaps, v: Json, s: Schema, i: nat, at: seq<Step>)
    requires Ranked(doc, rank) && v.Arr? && s.items.Some? && i <= |v.items|
    requires ItemsFrom(doc, rank, gaps, v, s, i, at).Ok?
    ensures AllLocated(v, at, ItemsFrom(doc, rank, gaps, v, s, i, at).value)
    decreases v, 0, s, 0, |v.items| - i
  {
    if i < |v.items| {
      var first := Check(doc, rank, gaps, v.items[i], s.items.value, at + [Index(i)], None);
      FaultsAreLocated(doc, rank, gaps, v.items[i], s.items.value, at + [Index(i)], None);
      ChildFaultsAreLocated(v, Index(i), at, first.value);
      ItemFaultsAreLocated(doc, rank, gaps, v, s, i + 1, at);
      LocatedConcat(v, at, first, ItemsFrom(doc, rank, gaps, v, s, i + 1, at));
    }
  }

  lemma {:induction false} FieldFaultsAreLocated(
    doc: Doc, rank: Rank, gaps: Gaps, v: Json, s: Schema, i: nat, at: seq<Step>, owner: Option<string>)
    requires Ranked(doc, rank) && v.Obj? && i <= |s.properties|
    requires FieldsFrom(doc, rank, gaps, v, s, i, at, owner).Ok?
    ensures AllLocated(v, at, FieldsFrom(doc, rank, gaps, v, s, i, at, owner).value)
    decreases v, 0, s, 0, |s.properties| - i
  {
    if i < |s.properties| {
      var key := s.properties[i].key;
      FieldFaultsAreLocated(doc, rank, gaps, v, s, i + 1, at, owner);
      if key in v.fields && !Skipped(gaps, owner, key, v.fields[key]) {
        var first := Check(doc, rank, gaps, v.fields[key], s.properties[i].schema, at + [Key(key)], None);
        FaultsAreLocated(doc, rank, gaps, v.fields[key], s.properties[i].schema, at + [Key(key)], None);
        ChildFaultsAreLocated(v, Key(key), at, first.value);
        LocatedConcat(v, at, first, FieldsFrom(doc, rank, gaps, v, s, i + 1, at, owner));
      }
    }
  }

  // ---------- The ranking does not matter ----------

  /** Any two rankings of the document give the same result: they only show that the check ends. */
  lemma {:induction false} SameForAnyRanking(
    doc: Doc, a: Rank, b: Rank, gaps: Gaps, v: Json, s: Schema, at: seq<Step>, owner: Option<string>)
    requires Ranked(doc, a) && Ranked(doc, b)
    ensures Check(doc, a, gaps, v, s, at, owner) == Check(doc, b, gaps, v, s, at, owner)
    decreases v, Level(a, s), s
  {
    if s.ref.Some? {
      if s.ref.value in doc {
        SameForAnyRanking(doc, a, b, gaps, v, doc[s.ref.value], at, s.ref);
      }
    } else if IsEmpty(v) {
    } else if s.allOf.Listed? {
      SameAllForAnyRanking(doc, a, b, gaps, v, s, 0, at, owner);
    } else if Alternatives(s).Listed? {
      SameAnyForAnyRanking(doc, a, b, gaps, v, s, 0, at, owner);
    } else if s.kind.ArrayKind? && v.Arr? && s.items.Some? {
      SameItemsForAnyRanking(doc, a, b, gaps, v, s, 0, at);
    } else if s.kind.ObjectKind? && v.Obj? {
      SameFieldsForAnyRanking(doc, a, b, gaps, v, s, 0, at, owner);
    }
  }

  lemma {:induction false} SameAllForAnyRanking(
    doc: Doc, a: Rank, b: Rank, gaps: Gaps, v: Json, s: Schema, i: nat, at: seq<Step>, owner: Option<string>)
    requires Ranked(doc, a) && Ranked(doc, b) && s.ref.None? && i <= |Parts(s)|
    ensures AllFrom(doc, a, gaps, v, s, i, at, owner) == AllFrom(doc, b, gaps, v, s, i, at, owner)
    decreases v, Level(a, s), s, 0, |Parts(s)| - i
  {
    if i < |Parts(s)| {
      PartsAreNoHigher(a, s, 0, i);
      SameForAnyRanking(doc, a, b, gaps, v, Parts(s)[i], at, owner);
      SameAllForAnyRanking(doc, a, b, gaps, v, s, i + 1, at, owner);
    }
  }

  lemma {:induction false} SameAnyForAnyRanking(
    doc: Doc, a: Rank, b: Rank, gaps: Gaps, v: Json, s: Schema, i: nat, at: seq<Step>, owner: Option<string>)
    requires Ranked(doc, a) && Ranked(doc, b) && s.ref.None? && i <= |Parts(s)|
    ensures AnyFrom(doc, a, gaps, v, s, i, at, owner) == AnyFrom(doc, b, gaps, v, s, i, at, owner)
    decreases v, Level(a, s), s, 0, |Parts(s)| - i
  {
    if i < |Parts(s)| {
      PartsAreNoHigher(a, s, 0, i);
      SameForAnyRanking(doc, a, b, gaps, v, Parts(s)[i], at, owner);
      SameAnyForAnyRanking(doc, a, b, gaps, v, s, i + 1, at, owner);
    }
  }

  lemma {:induction false} SameItemsForAnyRanking(
    doc: Doc, a: Rank, b: Rank, gaps: Gaps, v: Json, s: Schema, i: nat, at: seq<Step>)
    requires Ranked(doc, a) && Ranked(doc, b) && v.Arr? && s.items.Some? && i <= |v.items|
    ensures ItemsFrom(doc, a, gaps, v, s, i, at) == ItemsFrom(doc, b, gaps, v, s, i, at)
    decreases v, 0, s, 0, |v.items| - i
  {
    if i < |v.items| {
      SameForAnyRanking(doc, a, b, gaps, v.items[i], s.items.value, at + [Index(i)], None);
      SameItemsForAnyRanking(doc, a, b, gaps, v, s, i + 1, at);
    }
  }

  lemma {:induction false} SameFieldsForAnyRanking(
    doc: Doc, a: Rank, b: Rank, gaps: Gaps, v: Json, s: Schema, i: nat, at: seq<Step>, owner: Option<string>)
    requires Ranked(doc, a) && Ranked(doc, b) && v.Obj? && i <= |s.properties|
    ensures FieldsFrom(doc, a, gaps, v, s, i, at, owner) == FieldsFrom(doc, b, gaps, v, s, i, at, owner)
    decreases v, 0, s, 0, |s.properties| - i
  {
    if i < |s.properties| {
      var key := s.properties[i].key;
      if key in v.fields {
        SameForAnyRanking(doc, a, b, gaps, v.fields[key], s.properties[i].schema, at + [Key(key)], None);
      }
      SameFieldsForAnyRanking(doc, a, b, gaps, v, s, i + 1, at, owner);
    }
  }

  // ---------- Tolerated gaps ----------

  ghost predicate NoWider(a: Gaps, b: Gaps) {
    a.empty <= b.empty && a.kind <= b.kind
  }

  /** Listing more tolerated fields never rejects a value that was accepted before. */
  lemma {:induction false} WiderGapsAcceptMore(
    doc: Doc, rank: Rank, a: Gaps, b: Gaps, v: Json, s: Schema, owner: Option<string>)
    requires Ranked(doc, rank) && NoWider(a, b) && Conforms(doc, rank, a, v, s, owner)
    ensures Conforms(doc, rank, b, v, s, owner)
    decreases v, Level(rank, s), s
  {
    if s.ref.Some? {
      WiderGapsAcceptMore(doc, rank, a, b, v, doc[s.ref.value], s.ref);
    } else if IsEmpty(v) {
    } else if s.allOf.Listed? {
      WiderGapsFitAll(doc, rank, a, b, v, s, owner);
    } else if Alternatives(s).Listed? {
      WiderGapsFitAny(doc, rank, a, b, v, s, owner);
    } else {
      WiderGapsFitMore(doc, rank, a, b, v, s, owner);
    }
  }

  lemma {:induction false} WiderGapsFitAll(
    doc: Doc, rank: Rank, a: Gaps, b: Gaps, v: Json, s: Schema, owner: Option<string>)
    requires Ranked(doc, rank) && NoWider(a, b) && s.ref.None? && FitsAllFrom(doc, rank, a, v, s, 0, owner)
    ensures FitsAllFrom(doc, rank, b, v, s, 0, owner)
    decreases v, Level(rank, s), s, 0
  {
    AllPartsAreNoHigher(rank, s);
    forall k | 0 <= k < |Parts(s)| ensures Conforms(doc, rank, b, v, Parts(s)[k], owner) {
      WiderGapsAcceptMore(doc, rank, a, b, v, Parts(s)[k], owner);
    }
  }

  lemma {:induction false} WiderGapsFitAny(
    doc: Doc, rank: Rank, a: Gaps, b: Gaps, v: Json, s: Schema, owner: Option<string>)
    requires Ranked(doc, rank) && NoWider(a, b) && s.ref.None? && FitsAnyFrom(doc, rank, a, v, s, 0, owner)
    ensures FitsAnyFrom(doc, rank, b, v, s, 0, owner)
    decreases v, Level(rank, s), s, 0
  {
    AllPartsAreNoHigher(rank, s);
    var k :| 0 <= k < |Parts(s)| && Conforms(doc, rank, a, v, Parts(s)[k], owner);
    WiderGapsAcceptMore(doc, rank, a, b, v, Parts(s)[k], owner);
  }

  lemma {:induction false} WiderGapsFitMore(
    doc: Doc, rank: Rank, a: Gaps, b: Gaps, v: Json, s: Schema, owner: Option<string>)
    requires Ranked(doc, rank) && NoWider(a, b) && Fits(doc, rank, a, v, s, owner)
    ensures Fits(doc, rank, b, v, s, owner)
    decreases v, Level(rank, s), s, 0
  {
    if s.kind.ArrayKind? && s.items.Some? {
      forall k | 0 <= k < |v.items| ensures Conforms(doc, rank, b, v.items[k], s.items.value, None) {
        WiderGapsAcceptMore(doc, rank, a, b, v.items[k], s.items.value, None);
      }
    } else if s.kind.ObjectKind? {
      forall k | 0 <= k < |s.properties| && s.properties[k].key in v.fields
        ensures Excused(b, owner, s.properties[k].key, v.fields[s.properties[k].key])
             || Conforms(doc, rank, b, v.fields[s.properties[k].key], s.properties[k].schema, None)
      {
        if !Excused(a, owner, s.properties[k].key, v.fields[s.properties[k].key]) {
          WiderGapsAcceptMore(doc, rank, a, b, v.fields[s.properties[k].key], s.properties[k].schema, None);
        }
      }
    }
  }

  /** Whatever meets the contract to the letter is accepted with the known gaps tolerated. */
  lemma ContractIsAccepted(doc: Doc, rank: Rank, v: Json, s: Schema, at: seq<Step>, owner: Option<string>)
    requires Ranked(doc, rank) && Closed(doc) && Known(doc, s)
    requires Conforms(doc, rank, Gaps({}, {}), v, s, owner)
    ensures Check(doc, rank, KNOWN_GAPS, v, s, at, owner) == Ok([])
  {
    ClosedNeverThrows(doc, rank, KNOWN_GAPS, v, s, at, owner);
    WiderGapsAcceptMore(doc, rank, Gaps({}, {}), KNOWN_GAPS, v, s, owner);
    FaultlessIffConforms(doc, rank, KNOWN_GAPS, v, s, at, owner);
  }

  // ---------- The checker as it runs ----------

  lemma JoinedAssociates(a: Outcome<seq<Fault>>, b: Outcome<seq<Fault>>, c: Outcome<seq<Fault>>)
    ensures Joined(Joined(a, b), c) == Joined(a, Joined(b, c))
  {
    if a.Ok? && b.Ok? && c.Ok? {
      Associate(a.value, b.value, c.value);
    }
  }

  lemma JoinedWithNothing(a: Outcome<seq<Fault>>)
    ensures Joined(Ok([]), a) == a == Joined(a, Ok([]))
  {
    if a.Ok? {
      assert [] + a.value == a.value == a.value + [];
    }
  }

  /** Pushes faults as it goes, and lets an unknown reference end the whole run. */
  method Validate(doc: Doc, ghost rank: Rank, gaps: Gaps, v: Json, s: Schema, at: seq<Step>, owner: Option<string>)
    returns (r: Outcome<seq<Fault>>)
    requires Ranked(doc, rank)
    ensures r == Check(doc, rank, gaps, v, s, at, owner)
    decreases v, Level(rank, s), s
  {
    if s.ref.Some? {
      if s.ref.value !in doc {
        return Unknown(s.ref.value);
      }
      r := Validate(doc, rank, gaps, v, doc[s.ref.value], at, s.ref);
      return;
    }
    if IsEmpty(v) {
      return Ok(if s.nullable then [] else [Fault(at, NotNullable)]);
    }
    if s.allOf.Listed? {
      r := FlatMapParts(doc, rank, gaps, v, s, at, owner);
      return;
    }
    if Alternatives(s).Listed? {
      var some := TryAlternatives(doc, rank, gaps, v, s, 0, at, owner);
      if some.Unknown? {
        return Unknown(some.name);
      }
      return Ok(if some.value then [] else [Fault(at, NoAlternative)]);
    }
    r := ValidatePlain(doc, rank, gaps, v, s, at, owner);
  }

  method ValidatePlain(doc: Doc, ghost rank: Rank, gaps: Gaps, v: Json, s: Schema, at: seq<Step>, owner: Option<string>)
    returns (r: Outcome<seq<Fault>>)
    requires Ranked(doc, rank)
    ensures r == Joined(Ok(OwnFaults(v, s, at)), Inside(doc, rank, gaps, v, s, at, owner))
    decreases v, Level(rank, s), s, 1
  {
    var errors := [];
    if s.enum.Some? && !Included(v, s.enum.value) {
      errors := errors + [Fault(at, NotInEnum)];
    }
    if !KindHolds(v, s.kind) {
      errors := errors + [Fault(at, WrongType)];
    }
    assert errors == OwnFaults(v, s, at);
    if s.kind.ArrayKind? && v.Arr? && s.items.Some? {
      r := PushItems(doc, rank, gaps, v, s, at, errors);
    } else if s.kind.ObjectKind? && v.Obj? {
      var missing := PushMissing(gaps, v, s.required, at, owner, errors);
      r := PushFields(doc, rank, gaps, v, s, at, owner, missing);
      JoinedAssociates(Ok(errors), Ok(MissingFaults(gaps, v, s.required, at, owner)),
                       FieldsFrom(doc, rank, gaps, v, s, 0, at, owner));
    } else {
      r := Ok(errors);
      JoinedWithNothing(r);
    }
  }

  method FlatMapParts(doc: Doc, ghost rank: Rank, gaps: Gaps, v: Json, s: Schema, at: seq<Step>, owner: Option<string>)
    returns (r: Outcome<seq<Fault>>)
    requires Ranked(doc, rank) && s.ref.None?
    ensures r == AllFrom(doc, rank, gaps, v, s, 0, at, owner)
    decreases v, Level(rank, s), s, 0
  {
    var errors := [];
    var i := 0;
    JoinedWithNothing(AllFrom(doc, rank, gaps, v, s, 0, at, owner));
    while i < |Parts(s)|
      invariant i <= |Parts(s)|
      invariant Joined(Ok(errors), AllFrom(doc, rank, gaps, v, s, i, at, owner))
             == AllFrom(doc, rank, gaps, v, s, 0, at, owner)
    {
      PartsAreNoHigher(rank, s, 0, i);
      var part := Validate(doc, rank, gaps, v, Parts(s)[i], at, owner);
      JoinedAssociates(Ok(errors), part, AllFrom(doc, rank, gaps, v, s, i + 1, at, owner));
      if part.Unknown? {
        return part;
      }
      errors := errors + part.value;
      i := i + 1;
    }
    JoinedWithNothing(Ok(errors));
    r := Ok(errors);
  }

  /** Runs the alternatives from part `i` on, whether or not one has succeeded already. */
  method TryAlternatives(doc: Doc, ghost rank: Rank, gaps: Gaps, v: Json, s: Schema, i: nat, at: seq<Step>,
                         owner: Option<string>)
    returns (r: Outcome<bool>)
    requires Ranked(doc, rank) && s.ref.None? && i <= |Parts(s)|
    ensures r == AnyFrom(doc, rank, gaps, v, s, i, at, owner)
    decreases v, Level(rank, s), s, 0, |Parts(s)| - i
  {
    if i == |Parts(s)| {
      return Ok(false);
    }
    PartsAreNoHigher(rank, s, 0, i);
    var first := Validate(doc, rank, gaps, v, Parts(s)[i], at, owner);
    if first.Unknown? {
      return Unknown(first.name);
    }
    var rest := TryAlternatives(doc, rank, gaps, v, s, i + 1, at, owner);
    if rest.Unknown? {
      return rest;
    }
    return Ok(first.value == [] || rest.value);
  }

  method PushItems(doc: Doc, ghost rank: Rank, gaps: Gaps, v: Json, s: Schema, at: seq<Step>, before: seq<Fault>)
    returns (r: Outcome<seq<Fault>>)
    requires Ranked(doc, rank) && v.Arr? && s.items.Some?
    ensures r == Joined(Ok(before), ItemsFrom(doc, rank, gaps, v, s, 0, at))
    decreases v, 0, s, 0
  {
    var errors := before;
    var i := 0;
    while i < |v.items|
      invariant i <= |v.items|
      invariant Joined(Ok(errors), ItemsFrom(doc, rank, gaps, v, s, i, at))
             == Joined(Ok(before), ItemsFrom(doc, rank, gaps, v, s, 0, at))
    {
      var part := Validate(doc, rank, gaps, v.items[i], s.items.value, at + [Index(i)], None);
      JoinedAssociates(Ok(errors), part, ItemsFrom(doc, rank, gaps, v, s, i + 1, at));
      if part.Unknown? {
        return part;
      }
      errors := errors + part.value;
      i := i + 1;
    }
    JoinedWithNothing(Ok(errors));
    r := Ok(errors);
  }

  method PushMissing(gaps: Gaps, v: Json, keys: seq<string>, at: seq<Step>, owner: Option<string>, before: seq<Fault>)
    returns (errors: seq<Fault>)
    requires v.Obj?
    ensures errors == before + MissingFaults(gaps, v, keys, at, owner)
  {
    errors := before;
    var i := 0;
    while i < |keys|
      invariant i <= |keys|
      invariant errors + MissingFaults(gaps, v, keys[i..], at, owner)
             == before + MissingFaults(gaps, v, keys, at, owner)
    {
      if keys[i] !in v.fields && !Tolerated(gaps.empty, owner, keys[i]) {
        Associate(errors, [Fault(at + [Key(keys[i])], Missing)], MissingFaults(gaps, v, keys[i + 1..], at, owner));
        errors := errors + [Fault(at + [Key(keys[i])], Missing)];
      }
      assert keys[i..][1..] == keys[i + 1..];
      i := i + 1;
    }
  }

  method PushFields(doc: Doc, ghost rank: Rank, gaps: Gaps, v: Json, s: Schema, at: seq<Step>, owner: Option<string>,
                    before: seq<Fault>)
    returns (r: Outcome<seq<Fault>>)
    requires Ranked(doc, rank) && v.Obj?
    ensures r == Joined(Ok(before), FieldsFrom(doc, rank, gaps, v, s, 0, at, owner))
    decreases v, 0, s, 0
  {
    var errors := before;
    var i := 0;
    while i < |s.properties|
      invariant i <= |s.properties|
      invariant Joined(Ok(errors), FieldsFrom(doc, rank, gaps, v, s, i, at, owner))
             == Joined(Ok(before), FieldsFrom(doc, rank, gaps, v, s, 0, at, owner))
    {
      var key := s.properties[i].key;
      if key in v.fields && !Skipped(gaps, owner, key, v.fields[key]) {
        var part := Validate(doc, rank, gaps, v.fields[key], s.properties[i].schema, at + [Key(key)], None);
        JoinedAssociates(Ok(errors), part, FieldsFrom(doc, rank, gaps, v, s, i + 1, at, owner));
        if part.Unknown? {
          return part;
        }
        errors := errors + part.value;
      } else {
        JoinedWithNothing(FieldsFrom(doc, rank, gaps, v, s, i + 1, at, owner));
      }
      i := i + 1;
    }
    JoinedWithNothing(Ok(errors));
    r := Ok(errors);
  }
}
