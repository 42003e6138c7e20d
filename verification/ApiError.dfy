/** The text of a failed response: collecting message strings from a payload of any shape. */
module ApiError {
  import opened Common

  /** Field names the collectors look for; any other name is `Other`. */
  datatype Key =
    | Message | Msg | ErrorMessage | Messages | Detail | Errors | Error | Data | Constraints | Children | Fa
    | Other(name: string)

  /** An object's fields in their enumeration order, which decides the order of the text. */
  datatype Field = Field(key: Key, value: Json)
  datatype Json = Null | Bool(b: bool) | Num(n: real) | Str(s: string) | Arr(items: seq<Json>) | Obj(fields: seq<Field>)

  const GENERIC_HTTP_PHRASES: set<string> := {
    "bad request", "unauthorized", "forbidden", "not found", "method not allowed", "conflict",
    "unprocessable entity", "internal server error", "gateway timeout", "service unavailable",
    "too many requests", "unsupported media type", "payload too large", "precondition failed"
  }

  predicate IsDigit(c: char) {
    '0' <= c <= '9'
  }

  /** A bare HTTP phrase or a three-digit code. */
  predicate Generic(s: string) {
    || ToLowerCase(Trim(s)) in GENERIC_HTTP_PHRASES
    || (|s| == 3 && IsDigit(s[0]) && IsDigit(s[1]) && IsDigit(s[2]))
  }

  function Clean(s: string): seq<string> {
    if Trim(s) == "" then [] else [Trim(s)]
  }

  function Lookup(v: Json, i: nat, key: Key): (r: Option<Json>)
    requires v.Obj? && i <= |v.fields|
    ensures r.Some? ==> exists k :: i <= k < |v.fields| && v.fields[k].value == r.value
    ensures r.Some? ==> r.value < v
    decreases |v.fields| - i
  {
    if i == |v.fields| then None
    else if v.fields[i].key == key then Some(v.fields[i].value)
    else Lookup(v, i + 1, key)
  }

  function At(v: Json, key: Key): (r: Json)
    requires v.Obj?
    ensures r == Null || r < v
  {
    var r := Lookup(v, 0, key);
    if r.Some? then r.value else Null
  }

  // ---------- The collectors ----------

  function ValidationStrings(v: Json, depth: nat): seq<string>
    decreases v, 1
  {
    if depth > 4 then []
    else
      match v
      case Str(s) => Clean(s)
      case Arr(items) => ItemStrings(v, 0, depth + 1)
      case Obj(fields) =>
        var out := OwnStrings(v, depth);
        if out == [] then FieldStrings(v, 0, depth + 1) else out
      case _ => []
  }

  function ItemStrings(v: Json, i: nat, depth: nat): seq<string>
    requires v.Arr? && i <= |v.items|
    decreases v, 0, |v.items| - i
  {
    if i == |v.items| then [] else ValidationStrings(v.items[i], depth) + ItemStrings(v, i + 1, depth)
  }

  /** The values of an object one after another; only strings, arrays and objects are looked into. */
  function FieldStrings(v: Json, i: nat, depth: nat): seq<string>
    requires v.Obj? && i <= |v.fields|
    decreases v, 0, |v.fields| - i
  {
    if i == |v.fields| then []
    else
      var item := v.fields[i].value;
      (if item.Str? || item.Arr? || item.Obj? then ValidationStrings(item, depth) else []) +
      FieldStrings(v, i + 1, depth)
  }

  function OwnStrings(v: Json, depth: nat): seq<string>
    requires v.Obj?
    decreases v, 0
  {
    var message, constraints, children := At(v, Message), At(v, Constraints), At(v, Children);
    (if message.Str? then Clean(message.s) else []) +
    (if constraints.Obj? then FieldStrings(constraints, 0, depth + 1) else []) +
    (if children.Arr? then ValidationStrings(children, depth + 1) else [])
  }

  function FromMessageField(message: Json): seq<string> {
    match message
    case Str(s) => Clean(s)
    case Arr(items) => ItemStrings(message, 0, 0)
    case Obj(fields) =>
      var fa, nested := At(message, Fa), At(message, Message);
      if fa.Str? && Clean(fa.s) != [] then Clean(fa.s)
      else if nested.Str? && Clean(nested.s) != [] then Clean(nested.s)
      else ValidationStrings(message, 1)
    case _ => []
  }

  /** How a field of a record is read: whatever it is, only as text, only as a list, or as text or a tree. */
  datatype Shape = Any | Text | List | TextOrTree
  datatype Source = Source(key: Key, shape: Shape)

  /** The fields in the order they are read, before the `error` and `data` objects. */
  const SOURCES: seq<Source> := [
    Source(Message, Any), Source(Msg, Text), Source(ErrorMessage, Text), Source(Messages, List),
    Source(Detail, Text), Source(Errors, TextOrTree), Source(Error, Text)
  ]

  function FromSource(rec: Json, source: Source): seq<string>
    requires rec.Obj?
  {
    var v := At(rec, source.key);
    match source.shape
    case Any => FromMessageField(v)
    case Text => if v.Str? then FromMessageField(v) else []
    case List => if v.Arr? then ValidationStrings(v, 0) else []
    case TextOrTree =>
      if v.Str? then FromMessageField(v) else if v.Arr? || v.Obj? then ValidationStrings(v, 0) else []
  }

  function FromSources(rec: Json, sources: seq<Source>): seq<string>
    requires rec.Obj?
    decreases sources
  {
    if sources == [] then [] else FromSource(rec, sources[0]) + FromSources(rec, sources[1..])
  }

  function Specific(values: seq<string>): seq<string> {
    if values == [] then [] else (if Generic(values[0]) then [] else [values[0]]) + Specific(values[1..])
  }

  function Generics(values: seq<string>): seq<string> {
    if values == [] then [] else (if Generic(values[0]) then [values[0]] else []) + Generics(values[1..])
  }

  function Preferred(values: seq<string>): seq<string> {
    if Specific(values) != [] then Specific(values) else Generics(values)
  }

  function FromRecord(rec: Json, depth: nat, sources: seq<Source>): seq<string>
    requires rec.Obj?
    decreases rec
  {
    if depth > 3 then []
    else
      var error, data := At(rec, Error), At(rec, Data);
      Preferred(
        FromSources(rec, sources) +
        ((if error.Obj? then FromRecord(error, depth + 1, sources) else []) +
        (if data.Obj? then FromRecord(data, depth + 1, sources) else [])))
  }

  // ---------- Joining ----------

  const SEPARATOR := "، "

  /** The distinct trimmed values that are not empty, in order of first appearance, beyond those seen. */
  function Pieces(values: seq<string>, seen: set<string>): seq<string> {
    if values == [] then []
    else
      var trimmed := Trim(values[0]);
      if trimmed == "" || trimmed in seen then Pieces(values[1..], seen)
      else [trimmed] + Pieces(values[1..], seen + {trimmed})
  }

  function Join(pieces: seq<string>): string {
    if pieces == [] then ""
    else if |pieces| == 1 then pieces[0]
    else pieces[0] + SEPARATOR + Join(pieces[1..])
  }

  function JoinMessages(values: seq<string>): Option<string> {
    var pieces := Pieces(values, {});
    if pieces == [] then None else Some(Join(pieces))
  }

  // ---------- From payload to text ----------

  /** `JSON.parse` on text that opens an object or array gives one, or throws (None). */
  ghost predicate Parses(parse: string -> Option<Json>) {
    forall t :: t != "" && t[0] in {'{', '['} && parse(t).Some? ==> parse(t).value.Arr? || parse(t).value.Obj?
  }

  function FirstOf(values: seq<string>): Option<string> {
    if values == [] then None else Some(values[0])
  }

  function CollectedFrom(payload: Json): seq<string> {
    match payload
    case Arr(_) => ValidationStrings(payload, 0)
    case Obj(_) => FromRecord(payload, 0, SOURCES)
    case _ => []
  }

  function ExtractApiMessage(payload: Json, parse: string -> Option<Json>): Option<string> {
    if payload.Str? then
      var trimmed := Trim(payload.s);
      if trimmed != "" && trimmed[0] in {'{', '['} && parse(trimmed).Some?
      then JoinMessages(CollectedFrom(parse(trimmed).value))
      else FirstOf(Clean(trimmed))
    else JoinMessages(CollectedFrom(payload))
  }

  // ---------- The loops ----------

  method JoinAll(values: seq<string>) returns (joined: Option<string>)
    ensures joined == JoinMessages(values)
  {
    var seen: set<string> := {};
    var cleaned: seq<string> := [];
    var i := 0;
    while i < |values|
      invariant i <= |values|
      invariant cleaned + Pieces(values[i..], seen) == Pieces(values, {})
    {
      var trimmed := Trim(values[i]);
      assert values[i..][1..] == values[i + 1..];
      if trimmed != "" && trimmed !in seen {
        Associate(cleaned, [trimmed], Pieces(values[i + 1..], seen + {trimmed}));
        seen := seen + {trimmed};
        cleaned := cleaned + [trimmed];
      }
      i := i + 1;
    }
    assert values[i..] == [] && cleaned + [] == cleaned;
    joined := if |cleaned| > 0 then Some(Join(cleaned)) else None;
  }

  /** Pushes each value onto the array it belongs to. */
  method PushAll(specificBefore: seq<string>, genericBefore: seq<string>, values: seq<string>)
    returns (specific: seq<string>, generic: seq<string>)
    ensures specific == specificBefore + Specific(values) && generic == genericBefore + Generics(values)
  {
    specific, generic := specificBefore, genericBefore;
    var i := 0;
    while i < |values|
      invariant i <= |values|
      invariant specific + Specific(values[i..]) == specificBefore + Specific(values)
      invariant generic + Generics(values[i..]) == genericBefore + Generics(values)
    {
      assert values[i..][1..] == values[i + 1..];
      if Generic(values[i]) {
        Associate(generic, [values[i]], Generics(values[i + 1..]));
        generic := generic + [values[i]];
      } else {
        Associate(specific, [values[i]], Specific(values[i + 1..]));
        specific := specific + [values[i]];
      }
      i := i + 1;
    }
    assert values[i..] == [];
  }

  method CollectFromRecord(rec: Json, depth: nat, sources: seq<Source>) returns (values: seq<string>)
    requires rec.Obj?
    ensures values == FromRecord(rec, depth, sources)
    decreases rec
  {
    if depth > 3 {
      return [];
    }
    var error, data := At(rec, Error), At(rec, Data);
    var own, fromError, fromData := FromSources(rec, sources), [], [];
    var specific, generic := PushAll([], [], own);
    if error.Obj? {
      fromError := CollectFromRecord(error, depth + 1, sources);
      specific, generic := PushAll(specific, generic, fromError);
    } else {
      NothingPushed(specific, generic);
    }
    if data.Obj? {
      fromData := CollectFromRecord(data, depth + 1, sources);
      specific, generic := PushAll(specific, generic, fromData);
    } else {
      NothingPushed(specific, generic);
    }
    PushedAll(own, fromError, fromData);
    values := if |specific| > 0 then specific else generic;
  }

  lemma NothingPushed(specific: seq<string>, generic: seq<string>)
    ensures specific + Specific([]) == specific && generic + Generics([]) == generic
  {
  }

  lemma PushedAll(a: seq<string>, b: seq<string>, c: seq<string>)
    ensures Specific(a + (b + c)) == [] + Specific(a) + Specific(b) + Specific(c)
    ensures Generics(a + (b + c)) == [] + Generics(a) + Generics(b) + Generics(c)
  {
    SplitConcat(a, b + c);
    SplitConcat(b, c);
    Associate(Specific(a), Specific(b), Specific(c));
    Associate(Generics(a), Generics(b), Generics(c));
    assert [] + Specific(a) == Specific(a) && [] + Generics(a) == Generics(a);
  }

  lemma SplitOne(value: string)
    ensures Specific([value]) == if Generic(value) then [] else [value]
    ensures Generics([value]) == if Generic(value) then [value] else []
  {
    assert [value][1..] == [];
  }

  lemma {:induction false} SpecificConcat(a: seq<string>, b: seq<string>)
    ensures Specific(a + b) == Specific(a) + Specific(b)
  {
    if a == [] {
      assert a + b == b && Specific(a) + Specific(b) == Specific(b);
    } else {
      var head := if Generic(a[0]) then [] else [a[0]];
      assert (a + b)[1..] == a[1..] + b;
      assert Specific(a + b) == head + Specific(a[1..] + b);
      SpecificConcat(a[1..], b);
      Associate(head, Specific(a[1..]), Specific(b));
    }
  }

  lemma {:induction false} GenericsConcat(a: seq<string>, b: seq<string>)
    ensures Generics(a + b) == Generics(a) + Generics(b)
  {
    if a == [] {
      assert a + b == b && Generics(a) + Generics(b) == Generics(b);
    } else {
      var head := if Generic(a[0]) then [a[0]] else [];
      assert (a + b)[1..] == a[1..] + b;
      assert Generics(a + b) == head + Generics(a[1..] + b);
      GenericsConcat(a[1..], b);
      Associate(head, Generics(a[1..]), Generics(b));
    }
  }

  lemma SplitConcat(a: seq<string>, b: seq<string>)
    ensures Specific(a + b) == Specific(a) + Specific(b)
    ensures Generics(a + b) == Generics(a) + Generics(b)
  {
    SpecificConcat(a, b);
    GenericsConcat(a, b);
  }

  // ---------- Nothing is invented ----------

  /** `s` is a string of the payload, trimmed, and not empty. */
  ghost predicate HasLeaf(v: Json, s: string)
    decreases v
  {
    match v
    case Str(t) => s != "" && s == Trim(t)
    case Arr(items) => exists i :: 0 <= i < |items| && HasLeaf(items[i], s)
    case Obj(fields) => exists i :: 0 <= i < |fields| && HasLeaf(fields[i].value, s)
    case _ => false
  }

  lemma LeafBelow(v: Json, key: Key, s: string)
    requires v.Obj? && HasLeaf(At(v, key), s)
    ensures HasLeaf(v, s)
  {
    var k :| 0 <= k < |v.fields| && v.fields[k].value == At(v, key);
    assert HasLeaf(v.fields[k].value, s);
  }

  lemma {:induction false} ValidationLeaves(v: Json, depth: nat, s: string)
    requires s in ValidationStrings(v, depth)
    ensures HasLeaf(v, s)
    decreases v, 1
  {
    match v
    case Str(_) =>
    case Arr(items) => ItemLeaves(v, 0, depth + 1, s);
    case Obj(fields) =>
      if OwnStrings(v, depth) == [] {
        FieldLeaves(v, 0, depth + 1, s);
      } else {
        OwnLeaves(v, depth, s);
      }
    case _ =>
  }

  lemma {:induction false} ItemLeaves(v: Json, i: nat, depth: nat, s: string)
    requires v.Arr? && i <= |v.items| && s in ItemStrings(v, i, depth)
    ensures HasLeaf(v, s)
    decreases v, 0, |v.items| - i
  {
    if s in ValidationStrings(v.items[i], depth) {
      ValidationLeaves(v.items[i], depth, s);
    } else {
      ItemLeaves(v, i + 1, depth, s);
    }
  }

  lemma {:induction false} FieldLeaves(v: Json, i: nat, depth: nat, s: string)
    requires v.Obj? && i <= |v.fields| && s in FieldStrings(v, i, depth)
    ensures HasLeaf(v, s)
    decreases v, 0, |v.fields| - i
  {
    if s in FieldStrings(v, i + 1, depth) {
      FieldLeaves(v, i + 1, depth, s);
    } else {
      ValidationLeaves(v.fields[i].value, depth, s);
    }
  }

  lemma {:induction false} OwnLeaves(v: Json, depth: nat, s: string)
    requires v.Obj? && s in OwnStrings(v, depth)
    ensures HasLeaf(v, s)
    decreases v, 0
  {
    var message, constraints, children := At(v, Message), At(v, Constraints), At(v, Children);
    if message.Str? && s in Clean(message.s) {
      LeafBelow(v, Message, s);
    } else if constraints.Obj? && s in FieldStrings(constraints, 0, depth + 1) {
      FieldLeaves(constraints, 0, depth + 1, s);
      LeafBelow(v, Constraints, s);
    } else {
      ValidationLeaves(children, depth + 1, s);
      LeafBelow(v, Children, s);
    }
  }

  lemma MessageFieldLeaves(message: Json, s: string)
    requires s in FromMessageField(message)
    ensures HasLeaf(message, s)
  {
    match message
    case Str(_) =>
    case Arr(_) => ItemLeaves(message, 0, 0, s);
    case Obj(_) =>
      var fa, nested := At(message, Fa), At(message, Message);
      if fa.Str? && Clean(fa.s) != [] {
        LeafBelow(message, Fa, s);
      } else if nested.Str? && Clean(nested.s) != [] {
        LeafBelow(message, Message, s);
      } else {
        ValidationLeaves(message, 1, s);
      }
    case _ =>
  }

  lemma SourceLeaves(rec: Json, source: Source, s: string)
    requires rec.Obj? && s in FromSource(rec, source)
    ensures HasLeaf(rec, s)
  {
    var v := At(rec, source.key);
    if s in FromMessageField(v) {
      MessageFieldLeaves(v, s);
    } else {
      ValidationLeaves(v, 0, s);
    }
    LeafBelow(rec, source.key, s);
  }

  lemma {:induction false} SourcesLeaves(rec: Json, sources: seq<Source>, s: string)
    requires rec.Obj? && s in FromSources(rec, sources)
    ensures HasLeaf(rec, s)
    decreases sources
  {
    if s in FromSource(rec, sources[0]) {
      SourceLeaves(rec, sources[0], s);
    } else {
      SourcesLeaves(rec, sources[1..], s);
    }
  }

  lemma {:induction false} PreferredAreThere(values: seq<string>, s: string)
    requires s in Preferred(values)
    ensures s in values
  {
    SplitAreThere(values, s);
  }

  lemma {:induction false} SplitAreThere(values: seq<string>, s: string)
    ensures s in Specific(values) ==> s in values && !Generic(s)
    ensures s in Generics(values) ==> s in values && Generic(s)
  {
    if values != [] {
      SplitAreThere(values[1..], s);
    }
  }

  lemma {:induction false} RecordLeaves(rec: Json, depth: nat, sources: seq<Source>, s: string)
    requires rec.Obj? && s in FromRecord(rec, depth, sources)
    ensures HasLeaf(rec, s)
    decreases rec
  {
    var error, data := At(rec, Error), At(rec, Data);
    var fromError := if error.Obj? then FromRecord(error, depth + 1, sources) else [];
    var fromData := if data.Obj? then FromRecord(data, depth + 1, sources) else [];
    PreferredAreThere(FromSources(rec, sources) + (fromError + fromData), s);
    if s in fromError {
      RecordLeaves(error, depth + 1, sources, s);
      LeafBelow(rec, Error, s);
    } else if s in fromData {
      RecordLeaves(data, depth + 1, sources, s);
      LeafBelow(rec, Data, s);
    } else {
      SourcesLeaves(rec, sources, s);
    }
  }

  lemma {:induction false} LeafIsTrimmed(v: Json, s: string)
    requires HasLeaf(v, s)
    ensures s != "" && Trim(s) == s
    decreases v
  {
    match v
    case Str(t) => TrimIsTrimmed(t);
    case Arr(items) =>
      var i :| 0 <= i < |items| && HasLeaf(items[i], s);
      LeafIsTrimmed(items[i], s);
    case Obj(fields) =>
      var i :| 0 <= i < |fields| && HasLeaf(fields[i].value, s);
      LeafIsTrimmed(fields[i].value, s);
  }

  lemma {:induction false} PiecesSpec(values: seq<string>, seen: set<string>, p: string)
    ensures p in Pieces(values, seen) <==> p != "" && p !in seen && exists v :: v in values && Trim(v) == p
  {
    if values != [] {
      var trimmed := Trim(values[0]);
      PiecesSpec(values[1..], seen, p);
      PiecesSpec(values[1..], seen + {trimmed}, p);
    }
  }

  lemma {:induction false} PiecesAreDistinct(values: seq<string>, seen: set<string>)
    ensures Distinct(Pieces(values, seen))
  {
    if values != [] {
      var trimmed := Trim(values[0]);
      PiecesAreDistinct(values[1..], seen);
      PiecesAreDistinct(values[1..], seen + {trimmed});
      var rest := Pieces(values[1..], seen + {trimmed});
      forall j | 0 <= j < |rest| ensures rest[j] != trimmed {
        PiecesSpec(values[1..], seen + {trimmed}, rest[j]);
      }
    }
  }

  /** What the payload's text is joined from. */
  function PiecesOf(payload: Json): seq<string> {
    Pieces(CollectedFrom(payload), {})
  }

  /** Each joined piece is a trimmed string of the payload, none is repeated, and none collected is lost. */
  lemma PiecesAreLeaves(payload: Json, p: string)
    ensures p in PiecesOf(payload) <==> p in CollectedFrom(payload)
    ensures p in PiecesOf(payload) ==> HasLeaf(payload, p) && p != "" && Trim(p) == p
    ensures Distinct(PiecesOf(payload))
  {
    PiecesAreDistinct(CollectedFrom(payload), {});
    PiecesSpec(CollectedFrom(payload), {}, p);
    forall v | v in CollectedFrom(payload) ensures HasLeaf(payload, v) && v != "" && Trim(v) == v {
      match payload {
        case Arr(_) => ValidationLeaves(payload, 0, v);
        case Obj(_) => RecordLeaves(payload, 0, SOURCES, v);
      }
      LeafIsTrimmed(payload, v);
    }
  }

  // ---------- Generic phrases give way ----------

  /** Every piece a record and its nested records offer, with nothing dropped. */
  function Everything(rec: Json, depth: nat, sources: seq<Source>): seq<string>
    requires rec.Obj?
    decreases rec
  {
    if depth > 3 then []
    else
      var error, data := At(rec, Error), At(rec, Data);
      FromSources(rec, sources) +
      ((if error.Obj? then Everything(error, depth + 1, sources) else []) +
      (if data.Obj? then Everything(data, depth + 1, sources) else []))
  }

  lemma {:induction false} AllGeneric(values: seq<string>)
    requires Specific(values) == []
    ensures Generics(values) == values
  {
    if values != [] {
      AllGeneric(values[1..]);
      assert [values[0]] + values[1..] == values;
    }
  }

  lemma {:induction false} SpecificTwice(values: seq<string>)
    ensures Specific(Specific(values)) == Specific(values)
    ensures Specific(Generics(values)) == []
  {
    if values != [] {
      SpecificTwice(values[1..]);
      SplitConcat(if Generic(values[0]) then [] else [values[0]], Specific(values[1..]));
      SplitConcat(if Generic(values[0]) then [values[0]] else [], Generics(values[1..]));
      SplitOne(values[0]);
    }
  }

  lemma PreferredTwice(own: seq<string>, a: seq<string>, b: seq<string>)
    ensures Preferred(own + (Preferred(a) + Preferred(b))) == Preferred(own + (a + b))
  {
    SplitConcat(own, Preferred(a) + Preferred(b));
    SplitConcat(own, a + b);
    SplitConcat(Preferred(a), Preferred(b));
    SplitConcat(a, b);
    SpecificTwice(a);
    SpecificTwice(b);
    if Specific(own + (a + b)) == [] {
      AllGeneric(a);
      AllGeneric(b);
    }
  }

  /** Preferring at every level comes to preferring once, over everything. */
  lemma {:induction false} FromRecordPrefersOnce(rec: Json, depth: nat, sources: seq<Source>)
    requires rec.Obj?
    ensures FromRecord(rec, depth, sources) == Preferred(Everything(rec, depth, sources))
    decreases rec
  {
    if depth <= 3 {
      var error, data := At(rec, Error), At(rec, Data);
      var a := if error.Obj? then Everything(error, depth + 1, sources) else [];
      var b := if data.Obj? then Everything(data, depth + 1, sources) else [];
      if error.Obj? {
        FromRecordPrefersOnce(error, depth + 1, sources);
      }
      if data.Obj? {
        FromRecordPrefersOnce(data, depth + 1, sources);
      }
      PreferredTwice(FromSources(rec, sources), a, b);
    }
  }

  /** If anything specific was collected at any level, no generic phrase or bare code is shown. */
  lemma GenericGivesWay(rec: Json, s: string, p: string)
    requires rec.Obj? && s in Everything(rec, 0, SOURCES) && !Generic(s)
    ensures p in PiecesOf(rec) ==> !Generic(p) && p in Everything(rec, 0, SOURCES)
  {
    FromRecordPrefersOnce(rec, 0, SOURCES);
    SpecificIsKept(Everything(rec, 0, SOURCES), s);
    PiecesAreLeaves(rec, p);
    SplitAreThere(Everything(rec, 0, SOURCES), p);
  }

  lemma {:induction false} SpecificIsKept(values: seq<string>, s: string)
    requires s in values && !Generic(s)
    ensures s in Specific(values)
  {
    if s != values[0] {
      SpecificIsKept(values[1..], s);
    }
  }

  /** The payload whose strings are collected: text counts as JSON only if it opens a bracket and parses. */
  function Collectable(payload: Json, parse: string -> Option<Json>): Option<Json> {
    if !payload.Str? then Some(payload)
    else
      var trimmed := Trim(payload.s);
      if trimmed != "" && trimmed[0] in {'{', '['} then parse(trimmed) else None
  }

  /** A message is missing exactly when nothing was collected. */
  lemma CollectedIsJoined(payload: Json)
    ensures JoinMessages(CollectedFrom(payload))
         == if CollectedFrom(payload) == [] then None else Some(Join(PiecesOf(payload)))
  {
    if CollectedFrom(payload) != [] {
      PiecesAreLeaves(payload, CollectedFrom(payload)[0]);
    }
  }

  /**
   * Text that does not parse gives its trim, unless that is empty. Everything else gives what
   * is joined from the payload's own strings, and nothing exactly when none was collected;
   * parsed text gives what the parsed payload itself would.
   */
  lemma ExtractedText(payload: Json, parse: string -> Option<Json>)
    ensures var r := ExtractApiMessage(payload, parse);
      match Collectable(payload, parse)
      case None => payload.Str? && r == (if Trim(payload.s) == "" then None else Some(Trim(payload.s)))
      case Some(read) =>
        && r == (if CollectedFrom(read) == [] then None else Some(Join(PiecesOf(read))))
        && (Parses(parse) ==> r == ExtractApiMessage(read, parse))
  {
    if payload.Str? {
      TrimIsTrimmed(payload.s);
    }
    if Collectable(payload, parse).Some? {
      CollectedIsJoined(Collectable(payload, parse).value);
    }
  }
}
