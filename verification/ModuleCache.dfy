/** The dashboard's capped record: writing a key moves it to the end, and the oldest keys fall off the front. */
module ModuleCache {
  import opened Common

  const MAX_DATA_KEYS: nat := 48
  const MAX_CHROME_KEYS: nat := 24

  /** Stands for any stored value: the cache only keeps it and hands it back. */
  type Value = nat

  datatype Entry = Entry(key: string, value: Value)

  /** An object's own keys in enumeration order: the order of insertion, for keys that are not integers. */
  type Record = seq<Entry>

  predicate Has(r: Record, key: string) {
    exists i :: 0 <= i < |r| && r[i].key == key
  }

  function Get(r: Record, key: string): Option<Value> {
    if r == [] then None else if r[0].key == key then Some(r[0].value) else Get(r[1..], key)
  }

  function Deleted(r: Record, key: string): Record {
    if r == [] then [] else (if r[0].key == key then [] else [r[0]]) + Deleted(r[1..], key)
  }

  function SetCapped(r: Record, key: string, value: Value, maxKeys: nat): Record {
    var next := Deleted(r, key) + [Entry(key, value)];
    next[Max(0, |next| - maxKeys)..]
  }

  function Invalidated(r: Record, prefix: string): Record {
    if r == [] then [] else (if prefix <= r[0].key then [] else [r[0]]) + Invalidated(r[1..], prefix)
  }

  ghost predicate DistinctKeys(r: Record) {
    forall i, j :: 0 <= i < j < |r| ==> r[i].key != r[j].key
  }

  // ---------- The store ----------

  lemma {:induction false} DeletedSpec(r: Record, key: string)
    ensures forall e :: e in Deleted(r, key) <==> e in r && e.key != key
    ensures DistinctKeys(r) ==> DistinctKeys(Deleted(r, key))
  {
    if r != [] {
      DeletedSpec(r[1..], key);
      if DistinctKeys(r) {
        var rest := Deleted(r[1..], key);
        forall j | 0 <= j < |rest| ensures rest[j].key != r[0].key {
          var e: Entry := rest[j];
          assert e in rest;
          var i :| 0 <= i < |r[1..]| && r[1..][i] == e;
          assert r[i + 1] == e;
        }
      }
    }
  }

  lemma DeletedFirst(r: Record)
    requires r != [] && DistinctKeys(r)
    ensures Deleted(r, r[0].key) == r[1..]
  {
    assert forall i :: 0 <= i < |r[1..]| ==> r[1..][i] == r[i + 1];
    DeletedAbsent(r[1..], r[0].key);
  }

  lemma {:induction false} DeletedAbsent(r: Record, key: string)
    requires !Has(r, key)
    ensures Deleted(r, key) == r
  {
    if r != [] {
      assert r[0].key != key;
      assert forall i :: 0 <= i < |r[1..]| ==> r[1..][i] == r[i + 1];
      DeletedAbsent(r[1..], key);
      assert [r[0]] + r[1..] == r;
    }
  }

  lemma AppendedIsDistinct(r: Record, key: string, value: Value)
    requires DistinctKeys(r)
    ensures DistinctKeys(Deleted(r, key) + [Entry(key, value)])
  {
    DeletedSpec(r, key);
    var rest := Deleted(r, key);
    forall i | 0 <= i < |rest| ensures rest[i].key != key {
      var e: Entry := rest[i];
      assert e in rest;
    }
  }

  method SetCappedRecord(record: Record, key: string, value: Value, maxKeys: nat) returns (next: Record)
    requires DistinctKeys(record)
    ensures next == SetCapped(record, key, value, maxKeys)
  {
    next := Deleted(record, key) + [Entry(key, value)];
    AppendedIsDistinct(record, key, value);
    var keys := next;
    if |keys| <= maxKeys {
      return;
    }
    var excess := |keys| - maxKeys;
    var i := 0;
    while i < excess
      invariant i <= excess && next == keys[i..]
    {
      assert DistinctKeys(keys[i..]) by {
        assert forall k :: 0 <= k < |keys[i..]| ==> keys[i..][k] == keys[i + k];
      }
      DeletedFirst(next);
      next := Deleted(next, keys[i].key);
      i := i + 1;
    }
  }

  ghost function Sifted(r: Record, gone: set<string>): Record {
    if r == [] then [] else (if r[0].key in gone then [] else [r[0]]) + Sifted(r[1..], gone)
  }

  lemma {:induction false} DeletedFromSifted(r: Record, gone: set<string>, key: string)
    ensures Deleted(Sifted(r, gone), key) == Sifted(r, gone + {key})
  {
    if r != [] {
      DeletedFromSifted(r[1..], gone, key);
      var rest := Sifted(r[1..], gone);
      assert [] + rest == rest && ([r[0]] + rest)[1..] == rest;
    }
  }

  lemma {:induction false} SiftedIsInvalidated(r: Record, gone: set<string>, prefix: string)
    requires forall e :: e in r ==> (e.key in gone <==> prefix <= e.key)
    ensures Sifted(r, gone) == Invalidated(r, prefix)
  {
    if r != [] {
      SiftedIsInvalidated(r[1..], gone, prefix);
    }
  }

  lemma {:induction false} SiftedByNothing(r: Record)
    ensures Sifted(r, {}) == r
  {
    if r != [] {
      SiftedByNothing(r[1..]);
      assert [r[0]] + r[1..] == r;
    }
  }

  /** Deletes the matching keys one by one from a copy. */
  method WithoutPrefix(record: Record, prefix: string) returns (next: Record)
    ensures next == Invalidated(record, prefix)
  {
    next := record;
    ghost var gone: set<string> := {};
    SiftedByNothing(record);
    var i := 0;
    while i < |record|
      invariant i <= |record| && next == Sifted(record, gone)
      invariant forall key :: key in gone ==> prefix <= key
      invariant forall k :: 0 <= k < i && prefix <= record[k].key ==> record[k].key in gone
    {
      if prefix <= record[i].key {
        DeletedFromSifted(record, gone, record[i].key);
        next := Deleted(next, record[i].key);
        gone := gone + {record[i].key};
      }
      i := i + 1;
    }
    SiftedIsInvalidated(record, gone, prefix);
  }

  class Store {
    var data: Record
    var chrome: Record

    constructor ()
      ensures data == [] && chrome == [] && Valid()
    {
      data, chrome := [], [];
    }

    ghost predicate Valid()
      reads this
    {
      DistinctKeys(data) && DistinctKeys(chrome)
    }

    method SetData(key: string, value: Value)
      requires Valid()
      modifies this`data
      ensures Valid() && data == SetCapped(old(data), key, value, MAX_DATA_KEYS)
    {
      AppendedIsDistinct(data, key, value);
      data := SetCappedRecord(data, key, value, MAX_DATA_KEYS);
    }

    method SetChrome(key: string, value: Value)
      requires Valid()
      modifies this`chrome
      ensures Valid() && chrome == SetCapped(old(chrome), key, value, MAX_CHROME_KEYS)
    {
      AppendedIsDistinct(chrome, key, value);
      chrome := SetCappedRecord(chrome, key, value, MAX_CHROME_KEYS);
    }

    method InvalidatePrefix(prefix: string)
      requires Valid()
      modifies this`data
      ensures Valid() && data == Invalidated(old(data), prefix)
    {
      InvalidatedSpec(data, prefix);
      data := WithoutPrefix(data, prefix);
    }
  }

  lemma {:induction false} InvalidatedSpec(r: Record, prefix: string)
    ensures forall e :: e in Invalidated(r, prefix) <==> e in r && !(prefix <= e.key)
    ensures DistinctKeys(r) ==> DistinctKeys(Invalidated(r, prefix))
  {
    if r != [] {
      InvalidatedSpec(r[1..], prefix);
      if DistinctKeys(r) {
        var rest := Invalidated(r[1..], prefix);
        forall j | 0 <= j < |rest| ensures rest[j].key != r[0].key {
          var e: Entry := rest[j];
          assert e in rest;
          var i :| 0 <= i < |r[1..]| && r[1..][i] == e;
          assert r[i + 1] == e;
        }
      }
    }
  }

  // ---------- What a run of writes leaves ----------

  datatype Event = Write(key: string, value: Value) | Invalidate(prefix: string)

  function Next(r: Record, e: Event, maxKeys: nat): Record {
    match e
    case Write(key, value) => SetCapped(r, key, value, maxKeys)
    case Invalidate(prefix) => Invalidated(r, prefix)
  }

  function Run(es: seq<Event>, maxKeys: nat): Record {
    if es == [] then [] else Next(Run(es[..|es| - 1], maxKeys), es[|es| - 1], maxKeys)
  }

  /** What was last written under the key, unless an invalidation has covered it since. */
  function Current(es: seq<Event>, key: string): Option<Value> {
    if es == [] then None
    else
      match es[|es| - 1]
      case Write(k, value) => if k == key then Some(value) else Current(es[..|es| - 1], key)
      case Invalidate(prefix) => if prefix <= key then None else Current(es[..|es| - 1], key)
  }

  /** When the key was last written, counting from 1; 0 if it never was. */
  function LastWrite(es: seq<Event>, key: string): nat {
    if es == [] then 0
    else if es[|es| - 1].Write? && es[|es| - 1].key == key then |es|
    else LastWrite(es[..|es| - 1], key)
  }

  function WrittenAfter(es: seq<Event>, time: nat): set<string> {
    set i | time <= i < |es| && es[i].Write? :: es[i].key
  }

  function Keys(r: Record): set<string> {
    set i | 0 <= i < |r| :: r[i].key
  }

  ghost predicate UpToDate(r: Record, es: seq<Event>) {
    forall i :: 0 <= i < |r| ==> Current(es, r[i].key) == Some(r[i].value)
  }

  ghost predicate InOrderOfWrite(r: Record, es: seq<Event>) {
    forall i, j :: 0 <= i < j < |r| ==> LastWrite(es, r[i].key) < LastWrite(es, r[j].key)
  }

  /** A key that is current but gone was pushed out by `maxKeys` other keys written after it. */
  ghost predicate OnlyPushedOut(r: Record, es: seq<Event>, maxKeys: nat) {
    forall key :: Current(es, key).Some? && key !in Keys(r) ==> |WrittenAfter(es, LastWrite(es, key))| >= maxKeys
  }

  ghost predicate Agrees(r: Record, es: seq<Event>, maxKeys: nat) {
    |r| <= maxKeys && UpToDate(r, es) && InOrderOfWrite(r, es) && OnlyPushedOut(r, es, maxKeys)
  }

  lemma {:induction false} LastWriteBound(es: seq<Event>, key: string)
    ensures LastWrite(es, key) <= |es|
    ensures Current(es, key).Some? ==> LastWrite(es, key) > 0
    ensures LastWrite(es, key) > 0 ==> es[LastWrite(es, key) - 1].Write? && es[LastWrite(es, key) - 1].key == key
  {
    if es != [] {
      LastWriteBound(es[..|es| - 1], key);
    }
  }

  lemma WrittenAfterGrows(es: seq<Event>, e: Event, time: nat)
    ensures WrittenAfter(es, time) <= WrittenAfter(es + [e], time)
    ensures |WrittenAfter(es, time)| <= |WrittenAfter(es + [e], time)|
  {
    forall k | k in WrittenAfter(es, time) ensures k in WrittenAfter(es + [e], time) {
      var i :| time <= i < |es| && es[i].Write? && es[i].key == k;
      assert (es + [e])[i] == es[i];
    }
    SubsetIsSmaller(WrittenAfter(es, time), WrittenAfter(es + [e], time));
  }

  lemma SubsetIsSmaller(a: set<string>, b: set<string>)
    requires a <= b
    ensures |a| <= |b|
  {
    assert b == a + (b - a);
  }

  lemma {:induction false} KeysOfDistinct(r: Record)
    requires DistinctKeys(r)
    ensures |Keys(r)| == |r|
  {
    if r != [] {
      var last := |r| - 1;
      KeysOfDistinct(r[..last]);
      assert Keys(r) == Keys(r[..last]) + {r[last].key};
      assert r[last].key !in Keys(r[..last]);
    }
  }

  lemma TailKeepsOrder(r: Record, es: seq<Event>)
    requires r != [] && InOrderOfWrite(r, es)
    ensures InOrderOfWrite(r[1..], es)
    ensures forall e :: e in r[1..] ==> LastWrite(es, r[0].key) < LastWrite(es, e.key)
  {
    var tail := r[1..];
    assert forall i :: 0 <= i < |tail| ==> tail[i] == r[i + 1];
    forall e | e in tail ensures LastWrite(es, r[0].key) < LastWrite(es, e.key) {
      var i :| 0 <= i < |tail| && tail[i] == e;
      assert r[i + 1] == e;
    }
  }

  lemma PrependKeepsOrder(first: Entry, rest: Record, es: seq<Event>)
    requires InOrderOfWrite(rest, es) && forall e :: e in rest ==> LastWrite(es, first.key) < LastWrite(es, e.key)
    ensures InOrderOfWrite([first] + rest, es)
  {
    var r := [first] + rest;
    forall i, j | 0 <= i < j < |r| ensures LastWrite(es, r[i].key) < LastWrite(es, r[j].key) {
      assert r[j] == rest[j - 1] && rest[j - 1] in rest;
      assert i > 0 ==> r[i] == rest[i - 1];
    }
  }

  lemma {:induction false} DeletedKeepsOrder(r: Record, key: string, es: seq<Event>)
    requires InOrderOfWrite(r, es)
    ensures InOrderOfWrite(Deleted(r, key), es)
  {
    if r != [] {
      TailKeepsOrder(r, es);
      DeletedKeepsOrder(r[1..], key, es);
      DeletedSpec(r[1..], key);
      PrependKeepsOrder(r[0], Deleted(r[1..], key), es);
    }
  }

  lemma {:induction false} InvalidatedKeepsOrder(r: Record, prefix: string, es: seq<Event>)
    requires InOrderOfWrite(r, es)
    ensures InOrderOfWrite(Invalidated(r, prefix), es)
  {
    if r != [] {
      TailKeepsOrder(r, es);
      InvalidatedKeepsOrder(r[1..], prefix, es);
      InvalidatedSpec(r[1..], prefix);
      PrependKeepsOrder(r[0], Invalidated(r[1..], prefix), es);
    }
  }

  lemma OneMore(es: seq<Event>, e: Event)
    ensures (es + [e])[..|es|] == es
  {
  }

  lemma KeysInRecord(r: Record, key: string)
    ensures key in Keys(r) <==> exists e :: e in r && e.key == key
  {
    if key in Keys(r) {
      var i :| 0 <= i < |r| && r[i].key == key;
      assert r[i] in r;
    }
  }

  lemma InvalidateAgrees(r: Record, es: seq<Event>, maxKeys: nat, prefix: string)
    requires Agrees(r, es, maxKeys)
    ensures Agrees(Invalidated(r, prefix), es + [Invalidate(prefix)], maxKeys)
  {
    var e := Invalidate(prefix);
    var t := Invalidated(r, prefix);
    OneMore(es, e);
    InvalidatedSpec(r, prefix);
    InvalidatedKeepsOrder(r, prefix, es);
    InvalidatedIsShorter(r, prefix);
    forall i | 0 <= i < |t| ensures Current(es + [e], t[i].key) == Some(t[i].value) {
      assert t[i] in t;
    }
    forall key | Current(es + [e], key).Some? && key !in Keys(t)
      ensures |WrittenAfter(es + [e], LastWrite(es + [e], key))| >= maxKeys
    {
      KeysInRecord(r, key);
      KeysInRecord(t, key);
      WrittenAfterGrows(es, e, LastWrite(es, key));
    }
  }

  lemma {:induction false} InvalidatedIsShorter(r: Record, prefix: string)
    ensures |Invalidated(r, prefix)| <= |r|
  {
    if r != [] {
      InvalidatedIsShorter(r[1..], prefix);
    }
  }

  /** The record before its oldest keys are dropped. */
  function Appended(r: Record, key: string, value: Value): Record {
    Deleted(r, key) + [Entry(key, value)]
  }

  lemma AppendedAgrees(r: Record, es: seq<Event>, key: string, value: Value)
    requires UpToDate(r, es) && InOrderOfWrite(r, es)
    ensures UpToDate(Appended(r, key, value), es + [Write(key, value)])
    ensures InOrderOfWrite(Appended(r, key, value), es + [Write(key, value)])
  {
    var e := Write(key, value);
    var rest := Deleted(r, key);
    OneMore(es, e);
    DeletedSpec(r, key);
    DeletedKeepsOrder(r, key, es);
    forall i | 0 <= i < |rest|
      ensures rest[i].key != key && Current(es + [e], rest[i].key) == Some(rest[i].value)
      ensures LastWrite(es + [e], rest[i].key) == LastWrite(es, rest[i].key) < |es| + 1
    {
      assert rest[i] in rest;
      LastWriteBound(es, rest[i].key);
    }
  }

  lemma LaterKeysWereWritten(r: Record, es: seq<Event>, time: nat)
    requires InOrderOfWrite(r, es) && forall i :: 0 <= i < |r| ==> LastWrite(es, r[i].key) > time
    ensures |r| <= |WrittenAfter(es, time)|
  {
    forall key | key in Keys(r) ensures key in WrittenAfter(es, time) {
      LastWriteBound(es, key);
      assert es[LastWrite(es, key) - 1].key == key;
    }
    KeysOfDistinct(r);
    SubsetIsSmaller(Keys(r), WrittenAfter(es, time));
  }

  lemma PushedOutHere(next: Record, es: seq<Event>, maxKeys: nat, k: nat)
    requires InOrderOfWrite(next, es) && |next| > maxKeys && k < |next| - maxKeys
    ensures |WrittenAfter(es, LastWrite(es, next[k].key))| >= maxKeys
  {
    var t := next[|next| - maxKeys..];
    assert forall i :: 0 <= i < |t| ==> t[i] == next[|next| - maxKeys + i];
    LaterKeysWereWritten(t, es, LastWrite(es, next[k].key));
  }

  lemma InAppended(r: Record, key: string, value: Value, other: string)
    ensures (exists k: nat :: k < |Appended(r, key, value)| && Appended(r, key, value)[k].key == other)
      <==> other == key || other in Keys(r)
  {
    var next := Appended(r, key, value);
    DeletedSpec(r, key);
    if other == key {
      assert next[|next| - 1].key == other;
    } else if other in Keys(r) {
      KeysInRecord(r, other);
      var e :| e in r && e.key == other;
      assert e in next;
    }
    forall k: nat | k < |next| && next[k].key == other ensures other == key || other in Keys(r) {
      assert next[k] in next;
      KeysInRecord(r, other);
    }
  }

  lemma WritePushesOut(r: Record, es: seq<Event>, maxKeys: nat, key: string, value: Value, other: string)
    requires Agrees(r, es, maxKeys)
    requires Current(es + [Write(key, value)], other).Some? && other !in Keys(SetCapped(r, key, value, maxKeys))
    ensures |WrittenAfter(es + [Write(key, value)], LastWrite(es + [Write(key, value)], other))| >= maxKeys
  {
    var e := Write(key, value);
    var next := Appended(r, key, value);
    OneMore(es, e);
    if other == key || other in Keys(r) {
      AppendedAgrees(r, es, key, value);
      InAppended(r, key, value, other);
      var k: nat :| k < |next| && next[k].key == other;
      PushedOutHere(next, es + [e], maxKeys, k);
    } else {
      WrittenAfterGrows(es, e, LastWrite(es, other));
    }
  }

  lemma TailAgrees(r: Record, n: nat, es: seq<Event>)
    requires n <= |r| && UpToDate(r, es) && InOrderOfWrite(r, es)
    ensures UpToDate(r[n..], es) && InOrderOfWrite(r[n..], es)
  {
    var t := r[n..];
    assert forall i :: 0 <= i < |t| ==> t[i] == r[n + i];
  }

  lemma WriteOnlyPushesOut(r: Record, es: seq<Event>, maxKeys: nat, key: string, value: Value)
    requires Agrees(r, es, maxKeys)
    ensures OnlyPushedOut(SetCapped(r, key, value, maxKeys), es + [Write(key, value)], maxKeys)
  {
    var t, after := SetCapped(r, key, value, maxKeys), es + [Write(key, value)];
    forall other | Current(after, other).Some? && other !in Keys(t)
      ensures |WrittenAfter(after, LastWrite(after, other))| >= maxKeys
    {
      WritePushesOut(r, es, maxKeys, key, value, other);
    }
  }

  lemma WriteAgrees(r: Record, es: seq<Event>, maxKeys: nat, key: string, value: Value)
    requires Agrees(r, es, maxKeys)
    ensures Agrees(SetCapped(r, key, value, maxKeys), es + [Write(key, value)], maxKeys)
  {
    var next := Appended(r, key, value);
    AppendedAgrees(r, es, key, value);
    TailAgrees(next, Max(0, |next| - maxKeys), es + [Write(key, value)]);
    WriteOnlyPushesOut(r, es, maxKeys, key, value);
  }

  /**
   * After any run the record is within its cap, holds last-written values in the order of their
   * writing, holds nothing that was invalidated since, and lacks a key only when the cap's worth of
   * other keys was written after it.
   */
  lemma {:induction false} RunAgrees(es: seq<Event>, maxKeys: nat)
    ensures Agrees(Run(es, maxKeys), es, maxKeys)
  {
    if es != [] {
      var before := es[..|es| - 1];
      RunAgrees(before, maxKeys);
      assert es == before + [es[|es| - 1]];
      match es[|es| - 1]
      case Write(key, value) => WriteAgrees(Run(before, maxKeys), before, maxKeys, key, value);
      case Invalidate(prefix) => InvalidateAgrees(Run(before, maxKeys), before, maxKeys, prefix);
    }
  }

  /** Hence what a reader finds under a key is what was last written there. */
  lemma ReadsAreCurrent(es: seq<Event>, maxKeys: nat, key: string)
    requires Get(Run(es, maxKeys), key).Some?
    ensures Get(Run(es, maxKeys), key) == Current(es, key)
  {
    RunAgrees(es, maxKeys);
    GetIsEntry(Run(es, maxKeys), key);
  }

  lemma {:induction false} GetIsEntry(r: Record, key: string)
    requires Get(r, key).Some?
    ensures exists i :: 0 <= i < |r| && r[i] == Entry(key, Get(r, key).value)
  {
    if r[0].key != key {
      GetIsEntry(r[1..], key);
      var i :| 0 <= i < |r[1..]| && r[1..][i] == Entry(key, Get(r, key).value);
      assert r[i + 1] == Entry(key, Get(r, key).value);
    } else {
      assert r[0] == Entry(key, Get(r, key).value);
    }
  }

  // ---------- Writes alone ----------

  /** Everything in the record was written later than `key` last was. */
  ghost predicate LaterThan(r: Record, es: seq<Event>, key: string) {
    forall i :: 0 <= i < |r| ==> LastWrite(es, key) < LastWrite(es, r[i].key)
  }

  /** Every written key that is gone was last written before all that are left, which fill the cap. */
  ghost predicate HoldsTheLatest(r: Record, es: seq<Event>, maxKeys: nat) {
    forall key :: LastWrite(es, key) > 0 && key !in Keys(r) ==> |r| == maxKeys && LaterThan(r, es, key)
  }

  lemma TailIsLater(r: Record, n: nat, es: seq<Event>, key: string)
    requires n <= |r| && LaterThan(r, es, key)
    ensures LaterThan(r[n..], es, key)
  {
    assert forall i :: 0 <= i < |r[n..]| ==> r[n..][i] == r[n + i];
  }

  lemma {:induction false} DeletedLength(r: Record, key: string)
    requires DistinctKeys(r)
    ensures |Deleted(r, key)| >= |r| - 1
    ensures key !in Keys(r) ==> |Deleted(r, key)| == |r|
  {
    if key !in Keys(r) {
      DeletedAbsent(r, key);
    } else if r[0].key == key {
      DeletedFirst(r);
    } else {
      assert forall i :: 0 <= i < |r[1..]| ==> r[1..][i] == r[i + 1];
      DeletedLength(r[1..], key);
    }
  }

  /** The latest of a record in order, when longer than the cap, fill it and follow what they push out. */
  lemma DroppedIsEarlier(next: Record, es: seq<Event>, maxKeys: nat, other: string)
    requires InOrderOfWrite(next, es) && other in Keys(next)
    requires other !in Keys(next[Max(0, |next| - maxKeys)..])
    ensures var t := next[Max(0, |next| - maxKeys)..];
      |t| == maxKeys && LaterThan(t, es, other)
  {
    var n := Max(0, |next| - maxKeys);
    var t := next[n..];
    var k :| 0 <= k < |next| && next[k].key == other;
    BeforeSuffix(next, n, k);
    forall i | 0 <= i < |t| ensures LastWrite(es, other) < LastWrite(es, t[i].key) {
      assert t[i] == next[n + i];
    }
  }

  lemma BeforeSuffix(r: Record, n: nat, k: nat)
    requires k < |r| && n <= |r| && r[k].key !in Keys(r[n..])
    ensures k < n
  {
    assert forall i :: n <= i < |r| ==> r[n..][i - n] == r[i];
  }

  lemma WriteHoldsTheLatest(r: Record, es: seq<Event>, maxKeys: nat, key: string, value: Value, other: string)
    requires Agrees(r, es, maxKeys) && HoldsTheLatest(r, es, maxKeys)
    requires LastWrite(es + [Write(key, value)], other) > 0 && other !in Keys(SetCapped(r, key, value, maxKeys))
    ensures var t := SetCapped(r, key, value, maxKeys);
      |t| == maxKeys && LaterThan(t, es + [Write(key, value)], other)
  {
    var after := es + [Write(key, value)];
    var next := Appended(r, key, value);
    if other == key || other in Keys(r) {
      AppendedAgrees(r, es, key, value);
      InAppended(r, key, value, other);
      DroppedIsEarlier(next, after, maxKeys, other);
    } else {
      StillEarlier(r, es, maxKeys, key, value, other);
    }
  }

  lemma StillEarlier(r: Record, es: seq<Event>, maxKeys: nat, key: string, value: Value, other: string)
    requires Agrees(r, es, maxKeys) && HoldsTheLatest(r, es, maxKeys)
    requires LastWrite(es + [Write(key, value)], other) > 0 && other != key && other !in Keys(r)
    ensures var t := SetCapped(r, key, value, maxKeys);
      |t| == maxKeys && LaterThan(t, es + [Write(key, value)], other)
  {
    var next := Appended(r, key, value);
    LastOfOther(es, key, value, other);
    DeletedLength(r, key);
    OthersStillLater(r, es, key, value, other);
    TailIsLater(next, Max(0, |next| - maxKeys), es + [Write(key, value)], other);
  }

  lemma LastOfOther(es: seq<Event>, key: string, value: Value, other: string)
    requires other != key
    ensures LastWrite(es + [Write(key, value)], other) == LastWrite(es, other) <= |es|
  {
    OneMore(es, Write(key, value));
    LastWriteBound(es, other);
  }

  lemma OthersStillLater(r: Record, es: seq<Event>, key: string, value: Value, other: string)
    requires other != key && LaterThan(r, es, other)
    ensures LaterThan(Appended(r, key, value), es + [Write(key, value)], other)
  {
    var next, after := Appended(r, key, value), es + [Write(key, value)];
    LastOfOther(es, key, value, other);
    DeletedSpec(r, key);
    forall i | 0 <= i < |next| ensures LastWrite(after, other) < LastWrite(after, next[i].key) {
      if i < |next| - 1 {
        assert next[i] == Deleted(r, key)[i] && Deleted(r, key)[i] in Deleted(r, key);
        LastOfOther(es, key, value, next[i].key);
      } else {
        OneMore(es, Write(key, value));
      }
    }
  }

  /** After writes alone the record holds exactly the last `maxKeys` distinct keys written. */
  lemma {:induction false} WritesHoldTheLatest(es: seq<Event>, maxKeys: nat)
    requires forall i :: 0 <= i < |es| ==> es[i].Write?
    ensures HoldsTheLatest(Run(es, maxKeys), es, maxKeys)
  {
    if es != [] {
      var before, last := es[..|es| - 1], es[|es| - 1];
      WritesHoldTheLatest(before, maxKeys);
      RunAgrees(before, maxKeys);
      assert es == before + [Write(last.key, last.value)];
      forall key | LastWrite(es, key) > 0 && key !in Keys(Run(es, maxKeys))
        ensures |Run(es, maxKeys)| == maxKeys && LaterThan(Run(es, maxKeys), es, key)
      {
        WriteHoldsTheLatest(Run(before, maxKeys), before, maxKeys, last.key, last.value, key);
      }
    }
  }
}
