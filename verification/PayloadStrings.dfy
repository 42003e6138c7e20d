/** Exactly which strings of a failed response's payload reach the text shown, said of the payload alone. */
module PayloadStrings {
  import opened Common
  import opened ApiError

  // ---------- Fields ----------

  /** `w` is what the object has under the key; a later field of the same key does not count. */
  ghost predicate Has(v: Json, key: Key, w: Json)
    requires v.Obj?
  {
    exists k :: HasAt(v, key, w, k)
  }

  ghost predicate HasAt(v: Json, key: Key, w: Json, k: nat)
    requires v.Obj?
  {
    && k < |v.fields| && v.fields[k].key == key && v.fields[k].value == w
    && forall i :: 0 <= i < k ==> v.fields[i].key != key
  }

  lemma {:induction false} LookupIs(v: Json, i: nat, key: Key, w: Json)
    requires v.Obj? && i <= |v.fields| && forall j :: 0 <= j < i ==> v.fields[j].key != key
    ensures Lookup(v, i, key) == Some(w) <==> Has(v, key, w)
    decreases |v.fields| - i
  {
    if i < |v.fields| {
      if v.fields[i].key == key {
        assert HasAt(v, key, v.fields[i].value, i);
      } else {
        LookupIs(v, i + 1, key, w);
      }
    }
  }

  lemma AtIs(v: Json, key: Key, w: Json)
    requires v.Obj?
    ensures Has(v, key, w) ==> At(v, key) == w && w < v
    ensures At(v, key) == w && w != Null ==> Has(v, key, w)
  {
    LookupIs(v, 0, key, w);
  }

  ghost predicate SaysText(v: Json, key: Key, s: string)
    requires v.Obj?
  {
    s != "" && exists t :: Has(v, key, Str(t)) && Trim(t) == s
  }

  lemma TextIs(v: Json, key: Key, s: string)
    requires v.Obj?
    ensures SaysText(v, key, s) <==> At(v, key).Str? && s in Clean(At(v, key).s)
  {
    var w := At(v, key);
    AtIs(v, key, w);
    forall t ensures Has(v, key, Str(t)) ==> w == Str(t) {
      AtIs(v, key, Str(t));
    }
  }

  // ---------- Validation trees ----------

  /** A tree gives `s`: five levels deep at most, and an object's own messages before its other fields. */
  ghost predicate Gives(v: Json, s: string, depth: nat)
    decreases v, 2
  {
    depth <= 4 &&
    match v
    case Str(t) => s != "" && Trim(t) == s
    case Arr(items) => exists i :: 0 <= i < |items| && Gives(items[i], s, depth + 1)
    case Obj(_) => if HasOwn(v, depth) then OwnGives(v, s, depth) else FieldGives(v, s, depth + 1)
    case _ => false
  }

  ghost predicate HasOwn(v: Json, depth: nat)
    requires v.Obj?
    decreases v, 1
  {
    exists t :: OwnGives(v, t, depth)
  }

  ghost predicate FieldGives(v: Json, s: string, depth: nat)
    requires v.Obj?
    decreases v, 0
  {
    exists i :: 0 <= i < |v.fields| && Gives(v.fields[i].value, s, depth)
  }

  /** Its message, what is wrong with the value itself, or what is wrong with the values inside. */
  ghost predicate OwnGives(v: Json, s: string, depth: nat)
    requires v.Obj?
    decreases v, 0, 1
  {
    SaysText(v, Message, s) || ConstraintGives(v, s, depth) || ChildGives(v, s, depth)
  }

  ghost predicate ConstraintGives(v: Json, s: string, depth: nat)
    requires v.Obj?
    decreases v, 0, 0
  {
    exists w :: w < v && Has(v, Constraints, w) && w.Obj? && FieldGives(w, s, depth + 1)
  }

  ghost predicate ChildGives(v: Json, s: string, depth: nat)
    requires v.Obj?
    decreases v, 0, 0
  {
    exists w :: w < v && Has(v, Children, w) && w.Arr? && Gives(w, s, depth + 1)
  }

  lemma OnlyAt(v: Json, key: Key)
    requires v.Obj?
    ensures forall w :: Has(v, key, w) ==> w == At(v, key) && w < v
    ensures At(v, key) != Null ==> Has(v, key, At(v, key))
  {
    forall w ensures Has(v, key, w) ==> w == At(v, key) && w < v {
      AtIs(v, key, w);
    }
    AtIs(v, key, At(v, key));
  }

  lemma ConstraintIs(v: Json, s: string, depth: nat)
    requires v.Obj?
    ensures ConstraintGives(v, s, depth) <==>
      At(v, Constraints).Obj? && FieldGives(At(v, Constraints), s, depth + 1)
  {
    OnlyAt(v, Constraints);
  }

  lemma ChildIs(v: Json, s: string, depth: nat)
    requires v.Obj?
    ensures ChildGives(v, s, depth) <==> At(v, Children).Arr? && Gives(At(v, Children), s, depth + 1)
  {
    OnlyAt(v, Children);
  }

  lemma {:induction false} ItemsGive(v: Json, i: nat, s: string, depth: nat)
    requires v.Arr? && i <= |v.items|
    ensures s in ItemStrings(v, i, depth) <==> exists k :: i <= k < |v.items| && Gives(v.items[k], s, depth)
    decreases v, 0, |v.items| - i
  {
    if i < |v.items| {
      GivesExactly(v.items[i], s, depth);
      ItemsGive(v, i + 1, s, depth);
    }
  }

  lemma {:induction false} FieldsGive(v: Json, i: nat, s: string, depth: nat)
    requires v.Obj? && i <= |v.fields|
    ensures s in FieldStrings(v, i, depth) <==> exists k :: i <= k < |v.fields| && Gives(v.fields[k].value, s, depth)
    decreases v, 0, |v.fields| - i
  {
    if i < |v.fields| {
      GivesExactly(v.fields[i].value, s, depth);
      FieldsGive(v, i + 1, s, depth);
    }
  }

  lemma {:induction false} OwnExactly(v: Json, s: string, depth: nat)
    requires v.Obj?
    ensures s in OwnStrings(v, depth) <==> OwnGives(v, s, depth)
    decreases v, 0
  {
    var constraints, children := At(v, Constraints), At(v, Children);
    TextIs(v, Message, s);
    ConstraintIs(v, s, depth);
    ChildIs(v, s, depth);
    if constraints.Obj? {
      FieldsGive(constraints, 0, s, depth + 1);
    }
    if children.Arr? {
      GivesExactly(children, s, depth + 1);
    }
  }

  lemma {:induction false} HasOwnExactly(v: Json, depth: nat)
    requires v.Obj?
    ensures OwnStrings(v, depth) != [] <==> HasOwn(v, depth)
    decreases v, 1
  {
    forall t ensures t in OwnStrings(v, depth) <==> OwnGives(v, t, depth) {
      OwnExactly(v, t, depth);
    }
    if OwnStrings(v, depth) != [] {
      assert OwnGives(v, OwnStrings(v, depth)[0], depth);
    }
  }

  lemma {:induction false} ObjectExactly(v: Json, s: string, depth: nat)
    requires v.Obj? && depth <= 4
    ensures s in ValidationStrings(v, depth) <==> if HasOwn(v, depth) then OwnGives(v, s, depth)
                                                  else FieldGives(v, s, depth + 1)
    decreases v, 2
  {
    HasOwnExactly(v, depth);
    if HasOwn(v, depth) {
      OwnExactly(v, s, depth);
    } else {
      FieldsGive(v, 0, s, depth + 1);
    }
  }

  /** The collector finds exactly what the tree gives. */
  lemma {:induction false} GivesExactly(v: Json, s: string, depth: nat)
    ensures s in ValidationStrings(v, depth) <==> Gives(v, s, depth)
    decreases v, 3
  {
    if depth <= 4 {
      match v
      case Str(_) =>
      case Arr(_) => ItemsGive(v, 0, s, depth + 1);
      case Obj(_) => ObjectExactly(v, s, depth);
      case _ =>
    }
  }

  // ---------- Messages and records ----------

  /** A message gives its text, a list what its items give, an object its Persian text, or its own, or the rest. */
  ghost predicate MessageGives(m: Json, s: string) {
    match m
    case Str(t) => s != "" && Trim(t) == s
    case Arr(items) => exists i :: 0 <= i < |items| && Gives(items[i], s, 0)
    case Obj(_) =>
      if exists t :: SaysText(m, Fa, t) then SaysText(m, Fa, s)
      else if exists t :: SaysText(m, Message, t) then SaysText(m, Message, s)
      else Gives(m, s, 1)
    case _ => false
  }

  /** The fields of one record, in the order in which they are read. */
  ghost predicate OwnOffers(rec: Json, s: string)
    requires rec.Obj?
  {
    || (exists m :: Has(rec, Message, m) && MessageGives(m, s))
    || SaysText(rec, Msg, s) || SaysText(rec, ErrorMessage, s) || SaysText(rec, Detail, s)
    || SaysText(rec, Errors, s) || SaysText(rec, Error, s)
    || (exists l :: Has(rec, Messages, l) && l.Arr? && Gives(l, s, 0))
    || (exists t :: Has(rec, Errors, t) && (t.Arr? || t.Obj?) && Gives(t, s, 0))
  }

  /** A record offers its own strings and those of the records under `error` and `data`, four levels deep at most. */
  ghost predicate Offers(rec: Json, s: string, depth: nat)
    requires rec.Obj?
    decreases rec, 1
  {
    depth <= 3 &&
    (|| OwnOffers(rec, s)
     || OffersUnder(rec, Error, s, depth + 1)
     || OffersUnder(rec, Data, s, depth + 1))
  }

  ghost predicate OffersUnder(rec: Json, key: Key, s: string, depth: nat)
    requires rec.Obj?
    decreases rec, 0
  {
    exists r :: r < rec && Has(rec, key, r) && r.Obj? && Offers(r, s, depth)
  }

  lemma UnderKey(rec: Json, key: Key, s: string, depth: nat)
    requires rec.Obj?
    ensures OffersUnder(rec, key, s, depth) <==> At(rec, key).Obj? && Offers(At(rec, key), s, depth)
  {
    OnlyAt(rec, key);
  }

  lemma TextFieldIs(v: Json, key: Key)
    requires v.Obj?
    ensures (exists t :: SaysText(v, key, t)) <==> At(v, key).Str? && Clean(At(v, key).s) != []
  {
    forall t ensures SaysText(v, key, t) <==> At(v, key).Str? && t in Clean(At(v, key).s) {
      TextIs(v, key, t);
    }
    if At(v, key).Str? && Clean(At(v, key).s) != [] {
      assert SaysText(v, key, Clean(At(v, key).s)[0]);
    }
  }

  lemma MessageExactly(m: Json, s: string)
    ensures s in FromMessageField(m) <==> MessageGives(m, s)
  {
    match m
    case Str(_) =>
    case Arr(_) => ItemsGive(m, 0, s, 0);
    case Obj(_) =>
      TextFieldIs(m, Fa);
      TextFieldIs(m, Message);
      TextIs(m, Fa, s);
      TextIs(m, Message, s);
      GivesExactly(m, s, 1);
    case _ =>
  }

  lemma TextSourceIs(rec: Json, key: Key, s: string)
    requires rec.Obj?
    ensures s in FromSource(rec, Source(key, Text)) <==> SaysText(rec, key, s)
  {
    TextIs(rec, key, s);
  }

  lemma MessageSourceIs(rec: Json, key: Key, s: string)
    requires rec.Obj?
    ensures s in FromSource(rec, Source(key, Any)) <==> exists m :: Has(rec, key, m) && MessageGives(m, s)
  {
    MessageExactly(At(rec, key), s);
    OnlyAt(rec, key);
  }

  lemma ListSourceIs(rec: Json, key: Key, s: string)
    requires rec.Obj?
    ensures s in FromSource(rec, Source(key, List)) <==> exists l :: Has(rec, key, l) && l.Arr? && Gives(l, s, 0)
  {
    GivesExactly(At(rec, key), s, 0);
    OnlyAt(rec, key);
  }

  lemma TreeSourceIs(rec: Json, key: Key, s: string)
    requires rec.Obj?
    ensures s in FromSource(rec, Source(key, TextOrTree)) <==>
      SaysText(rec, key, s) || exists t :: Has(rec, key, t) && (t.Arr? || t.Obj?) && Gives(t, s, 0)
  {
    TextIs(rec, key, s);
    GivesExactly(At(rec, key), s, 0);
    OnlyAt(rec, key);
  }

  ghost predicate SourceOffers(rec: Json, source: Source, s: string)
    requires rec.Obj?
  {
    match source.shape
    case Any => exists m :: Has(rec, source.key, m) && MessageGives(m, s)
    case Text => SaysText(rec, source.key, s)
    case List => exists l :: Has(rec, source.key, l) && l.Arr? && Gives(l, s, 0)
    case TextOrTree =>
      SaysText(rec, source.key, s) || exists t :: Has(rec, source.key, t) && (t.Arr? || t.Obj?) && Gives(t, s, 0)
  }

  lemma SourceExactly(rec: Json, source: Source, s: string)
    requires rec.Obj?
    ensures s in FromSource(rec, source) <==> SourceOffers(rec, source, s)
  {
    match source.shape
    case Any => MessageSourceIs(rec, source.key, s);
    case Text => TextSourceIs(rec, source.key, s);
    case List => ListSourceIs(rec, source.key, s);
    case TextOrTree => TreeSourceIs(rec, source.key, s);
  }

  lemma SourcesFrom(rec: Json, sources: seq<Source>, k: nat, s: string)
    requires rec.Obj? && k < |sources|
    ensures s in FromSources(rec, sources[k..]) <==>
      SourceOffers(rec, sources[k], s) || s in FromSources(rec, sources[k + 1..])
  {
    SourceExactly(rec, sources[k], s);
    assert sources[k..][1..] == sources[k + 1..];
  }

  ghost predicate AreTheSources(sources: seq<Source>) {
    && |sources| == 7
    && sources[0] == Source(Message, Any) && sources[1] == Source(Msg, Text)
    && sources[2] == Source(ErrorMessage, Text) && sources[3] == Source(Messages, List)
    && sources[4] == Source(Detail, Text) && sources[5] == Source(Errors, TextOrTree)
    && sources[6] == Source(Error, Text)
  }

  lemma FirstFour(rec: Json, sources: seq<Source>, s: string)
    requires rec.Obj? && |sources| == 7
    ensures s in FromSources(rec, sources[0..]) <==>
      || SourceOffers(rec, sources[0], s) || SourceOffers(rec, sources[1], s) || SourceOffers(rec, sources[2], s)
      || SourceOffers(rec, sources[3], s) || s in FromSources(rec, sources[4..])
  {
    SourcesFrom(rec, sources, 0, s);
    SourcesFrom(rec, sources, 1, s);
    SourcesFrom(rec, sources, 2, s);
    SourcesFrom(rec, sources, 3, s);
  }

  lemma LastThree(rec: Json, sources: seq<Source>, s: string)
    requires rec.Obj? && |sources| == 7
    ensures s in FromSources(rec, sources[4..]) <==>
      || SourceOffers(rec, sources[4], s) || SourceOffers(rec, sources[5], s) || SourceOffers(rec, sources[6], s)
  {
    SourcesFrom(rec, sources, 4, s);
    SourcesFrom(rec, sources, 5, s);
    SourcesFrom(rec, sources, 6, s);
  }

  lemma OwnOffersExactly(rec: Json, sources: seq<Source>, s: string)
    requires rec.Obj? && AreTheSources(sources)
    ensures s in FromSources(rec, sources) <==> OwnOffers(rec, s)
  {
    assert sources[0..] == sources;
    FirstFour(rec, sources, s);
    LastThree(rec, sources, s);
  }

  /** Before anything gives way, a record's strings are exactly those it offers. */
  lemma {:induction false} OffersExactly(rec: Json, sources: seq<Source>, s: string, depth: nat)
    requires rec.Obj? && AreTheSources(sources)
    ensures s in Everything(rec, depth, sources) <==> Offers(rec, s, depth)
    decreases rec
  {
    var error, data := At(rec, Error), At(rec, Data);
    OwnOffersExactly(rec, sources, s);
    UnderKey(rec, Error, s, depth + 1);
    UnderKey(rec, Data, s, depth + 1);
    if error.Obj? {
      OffersExactly(error, sources, s, depth + 1);
    }
    if data.Obj? {
      OffersExactly(data, sources, s, depth + 1);
    }
  }

  // ---------- What is shown ----------

  ghost predicate Digits(s: string) {
    forall i :: 0 <= i < |s| ==> s[i] in "0123456789"
  }

  /** A phrase or code of HTTP itself, which says nothing of what went wrong. */
  ghost predicate OfHttp(s: string) {
    (|s| == 3 && Digits(s)) || ToLowerCase(Trim(s)) in GENERIC_HTTP_PHRASES
  }

  lemma GenericIs(s: string)
    ensures Generic(s) <==> OfHttp(s)
  {
    forall i | 0 <= i < |s| ensures IsDigit(s[i]) <==> s[i] in "0123456789" {
      DigitIs(s[i]);
    }
  }

  lemma DigitIs(c: char)
    ensures IsDigit(c) <==> c in "0123456789"
  {
    var d := "0123456789";
    assert d[0] == '0' && d[1] == '1' && d[2] == '2' && d[3] == '3' && d[4] == '4';
    assert d[5] == '5' && d[6] == '6' && d[7] == '7' && d[8] == '8' && d[9] == '9';
  }

  lemma FromRecordExactly(rec: Json, depth: nat, sources: seq<Source>, s: string)
    requires rec.Obj? && AreTheSources(sources)
    ensures s in FromRecord(rec, depth, sources) <==>
      Offers(rec, s, depth) && (OfHttp(s) ==> forall t :: Offers(rec, t, depth) ==> OfHttp(t))
  {
    var all := Everything(rec, depth, sources);
    FromRecordPrefersOnce(rec, depth, sources);
    forall t ensures (t in all <==> Offers(rec, t, depth)) && (Generic(t) <==> OfHttp(t)) {
      OffersExactly(rec, sources, t, depth);
      GenericIs(t);
    }
    PreferredIs(all, s);
  }

  /** Of a record is shown what it offers, or, if any of that says what went wrong, only what does. */
  lemma RecordShows(rec: Json, s: string)
    requires rec.Obj?
    ensures s in PiecesOf(rec) <==>
      Offers(rec, s, 0) && (OfHttp(s) ==> forall t :: Offers(rec, t, 0) ==> OfHttp(t))
  {
    PiecesAreLeaves(rec, s);
    FromRecordExactly(rec, 0, SOURCES, s);
  }

  lemma PreferredIs(values: seq<string>, s: string)
    ensures s in Preferred(values) <==> s in values && (Generic(s) ==> forall t :: t in values ==> Generic(t))
  {
    SplitAreThere(values, s);
    forall t | t in values ensures Generic(t) || t in Specific(values) {
      if !Generic(t) {
        SpecificIsKept(values, t);
      }
    }
    if Specific(values) == [] {
      AllGeneric(values);
    } else {
      SplitAreThere(values, Specific(values)[0]);
    }
  }

  /** Of a list is shown what its items give. */
  lemma ListShows(list: Json, s: string)
    requires list.Arr?
    ensures s in PiecesOf(list) <==> exists i :: 0 <= i < |list.items| && Gives(list.items[i], s, 1)
  {
    PiecesAreLeaves(list, s);
    GivesExactly(list, s, 0);
  }

  lemma FirstSourceFirst(rec: Json, sources: seq<Source>)
    requires rec.Obj? && sources != [] && FromSource(rec, sources[0]) != []
    ensures FromSources(rec, sources) != [] && FromSources(rec, sources)[0] == FromSource(rec, sources[0])[0]
  {
  }

  lemma FirstStaysFirst(values: seq<string>)
    requires values != [] && !Generic(values[0]) && values[0] != "" && Trim(values[0]) == values[0]
    ensures Pieces(Preferred(values), {}) != [] && Pieces(Preferred(values), {})[0] == values[0]
  {
    assert Specific(values)[0] == values[0];
  }

  lemma MessageSourceGives(rec: Json, s: string)
    requires rec.Obj? && SaysText(rec, Message, s)
    ensures FromSource(rec, Source(Message, Any)) == [s] && Trim(s) == s
  {
    TextIs(rec, Message, s);
    TrimIsTrimmed(At(rec, Message).s);
  }

  lemma MessageIsFirst(rec: Json, depth: nat, sources: seq<Source>, s: string)
    requires rec.Obj? && SaysText(rec, Message, s) && depth <= 3
    requires sources != [] && sources[0] == Source(Message, Any)
    ensures var all := Everything(rec, depth, sources); all != [] && all[0] == s && Trim(s) == s
  {
    MessageSourceGives(rec, s);
    FirstSourceFirst(rec, sources);
  }

  /** A message that says what went wrong comes first: it is the first thing read. */
  lemma MessageComesFirst(rec: Json, depth: nat, sources: seq<Source>, s: string)
    requires rec.Obj? && SaysText(rec, Message, s) && !OfHttp(s) && depth <= 3
    requires sources != [] && sources[0] == Source(Message, Any)
    ensures var pieces := Pieces(FromRecord(rec, depth, sources), {}); pieces != [] && pieces[0] == s
  {
    GenericIs(s);
    MessageIsFirst(rec, depth, sources, s);
    FromRecordPrefersOnce(rec, depth, sources);
    FirstStaysFirst(Everything(rec, depth, sources));
  }

  /** The pieces are joined in order: one more comes after the separator. */
  lemma {:induction false} JoinAdds(pieces: seq<string>, p: string)
    ensures Join([]) == ""
    ensures Join(pieces + [p]) == if pieces == [] then p else Join(pieces) + SEPARATOR + p
  {
    if pieces != [] {
      JoinAdds(pieces[1..], p);
      assert (pieces + [p])[1..] == pieces[1..] + [p];
      if |pieces| > 1 {
        Associate(pieces[0] + SEPARATOR, Join(pieces[1..]), SEPARATOR + p);
      }
    } else {
      assert [] + [p] == [p];
    }
  }
}
