/**
 * The proxy's in-process cache of shared catalogue lists: the two rule tables, the store,
 * and the steps of a forwarded request that touch it.
 */
module CatalogCache {
  import opened Common
  import opened Paths

  // ---------- Rules ----------

  /** `^p$` and `^p(\?.*)?$` */
  datatype ListPattern = Exact(path: string) | OptionalQuery(path: string)
  {
    predicate Test(s: string) {
      s == path || (OptionalQuery? && path + "?" <= s)
    }
  }

  /** `^p$`, `^p/.+`, `^p/` and `^p[^/]+$` */
  datatype MutationPattern = Is(path: string) | Below(path: string) | Under(path: string) | Glued(path: string)
  {
    predicate Test(s: string) {
      match this
      case Is(p) => s == p
      case Below(p) => p + "/" <= s && |s| > |p| + 1
      case Under(p) => p + "/" <= s
      case Glued(p) => p <= s && |s| > |p| && '/' !in s[|p|..]
    }
  }

  datatype ListRule = ListRule(test: ListPattern, ttlMs: nat)
  datatype CascadeRule = CascadeRule(test: MutationPattern, also: seq<string>)
  datatype Rules = Rules(cacheable: seq<ListRule>, cascade: seq<CascadeRule>)

  /** The list patterns read as what they match: the path, with any query or none. */
  lemma ListPatternMatches(t: ListPattern, s: string)
    ensures t.Test(s) <==> s == t.path || (t.OptionalQuery? && exists query :: s == t.path + "?" + query)
  {
    if t.Test(s) && s != t.path {
      assert s == t.path + "?" + s[|t.path| + 1..];
    }
    if query :| s == t.path + "?" + query {
      assert t.path + "?" <= s;
    }
  }

  /** The mutation patterns likewise: the path, something below it, the same or nothing, or a segment it begins. */
  lemma MutationPatternMatches(t: MutationPattern, s: string)
    ensures t.Test(s) <==>
      match t
      case Is(p) => s == p
      case Below(p) => exists rest :: rest != "" && s == p + "/" + rest
      case Under(p) => exists rest :: s == p + "/" + rest
      case Glued(p) => exists rest :: rest != "" && '/' !in rest && s == p + rest
  {
    var p := t.path;
    if !t.Is? && t.Test(s) {
      assert t.Glued? ==> s == p + s[|p|..];
      assert !t.Glued? ==> s == p + "/" + s[|p| + 1..];
    }
    if rest :| s == p + "/" + rest {
      assert p + "/" <= s;
    }
    if rest :| rest != "" && '/' !in rest && s == p + rest {
      assert s[|p|..] == rest;
    }
  }

  /** No cacheable path contains a query mark of its own. */
  ghost predicate PlainPaths(r: Rules) {
    AllPlain(r.cacheable)
  }

  ghost predicate AllPlain(rules: seq<ListRule>) {
    forall rule :: rule in rules ==> '?' !in rule.test.path
  }

  lemma AllPlainConcat(a: seq<ListRule>, b: seq<ListRule>)
    requires AllPlain(a) && AllPlain(b)
    ensures AllPlain(a + b)
  {
  }

  function FirstTtl(rules: seq<ListRule>, key: string): Option<nat> {
    if rules == [] then None
    else if rules[0].test.Test(key) then Some(rules[0].ttlMs)
    else FirstTtl(rules[1..], key)
  }

  function GetCatalogCacheTtl(r: Rules, key: string): Option<nat> {
    FirstTtl(r.cacheable, key)
  }

  predicate IsMutationCacheRelated(r: Rules, path: string) {
    || GetCatalogCacheTtl(r, path).Some?
    || exists i :: 0 <= i < |r.cascade| && r.cascade[i].test.Test(path)
  }

  /** A mutation of `m` changes the list at `p`: it is that list, or a cascade rule says so. */
  predicate Affects(r: Rules, m: string, p: string) {
    Reached(r.cascade, m, p)
  }

  predicate Reached(cascade: seq<CascadeRule>, m: string, p: string) {
    p == m || exists i :: 0 <= i < |cascade| && cascade[i].test.Test(m) && p in cascade[i].also
  }

  // ---------- Store ----------

  datatype Entry = Entry(body: string, contentType: string, status: int, cachedAt: nat, ttlMs: nat)
  type Store = map<string, Entry>

  /** `key.split('?')[0]` */
  function KeyPath(key: string): string {
    BeforeQuery(key)
  }

  predicate Fresh(e: Entry, now: nat) {
    now <= e.cachedAt + e.ttlMs
  }

  function Lookup(store: Store, key: string, now: nat): Option<Entry> {
    if key in store && Fresh(store[key], now) then Some(store[key]) else None
  }

  function AfterLookup(store: Store, key: string, now: nat): Store {
    if key in store && !Fresh(store[key], now) then store - {key} else store
  }

  function Without(store: Store, path: string): Store {
    map k | k in store && KeyPath(k) != path :: store[k]
  }

  /** What a mutation of `m` leaves in the store. */
  function Invalidated(r: Rules, store: Store, m: string): Store {
    map k | k in store && !Affects(r, m, KeyPath(k)) :: store[k]
  }

  class Cache {
    const rules: Rules
    var store: Store

    constructor (rules: Rules)
      ensures this.rules == rules && store == map[]
    {
      this.rules := rules;
      store := map[];
    }

    method Get(key: string, now: nat) returns (e: Option<Entry>)
      modifies this
      ensures e == Lookup(old(store), key, now) && store == AfterLookup(old(store), key, now)
    {
      if key !in store {
        return None;
      }
      if now > store[key].cachedAt + store[key].ttlMs {
        store := store - {key};
        return None;
      }
      return Some(store[key]);
    }

    method Set(key: string, body: string, contentType: string, status: int, ttlMs: nat, now: nat)
      modifies this
      ensures store == old(store)[key := Entry(body, contentType, status, now, ttlMs)]
    {
      store := store[key := Entry(body, contentType, status, now, ttlMs)];
    }

    /** One sweep over the keys, deleting those of one path. */
    method DropPath(path: string)
      modifies this
      ensures store == Without(old(store), path)
    {
      var todo := store.Keys;
      while todo != {}
        invariant todo <= old(store).Keys
        invariant store == map k | k in old(store) && (k in todo || KeyPath(k) != path) :: old(store)[k]
        decreases |todo|
      {
        var key :| key in todo;
        if KeyPath(key) == path {
          store := store - {key};
        }
        todo := todo - {key};
      }
    }

    method DropPaths(paths: seq<string>)
      modifies this
      ensures store == map k | k in old(store) && KeyPath(k) !in paths :: old(store)[k]
    {
      for j := 0 to |paths|
        invariant store == map k | k in old(store) && KeyPath(k) !in paths[..j] :: old(store)[k]
      {
        DropPath(paths[j]);
        assert paths[..j + 1] == paths[..j] + [paths[j]];
      }
      assert paths[..|paths|] == paths;
    }

    method InvalidateByPath(path: string)
      modifies this
      ensures store == Invalidated(rules, old(store), path)
    {
      DropPath(path);
      for i := 0 to |rules.cascade|
        invariant store == map k | k in old(store) && !Reached(rules.cascade[..i], path, KeyPath(k)) :: old(store)[k]
      {
        ReachedStep(rules.cascade, i, path);
        if rules.cascade[i].test.Test(path) {
          DropPaths(rules.cascade[i].also);
        }
      }
      assert rules.cascade[..|rules.cascade|] == rules.cascade;
    }
  }

  lemma ReachedStep(cascade: seq<CascadeRule>, i: nat, m: string)
    requires i < |cascade|
    ensures forall p :: Reached(cascade[..i + 1], m, p) <==>
      Reached(cascade[..i], m, p) || (cascade[i].test.Test(m) && p in cascade[i].also)
  {
    var next := cascade[..i + 1];
    assert next == cascade[..i] + [cascade[i]];
    forall p | Reached(cascade[..i], m, p) && p != m ensures Reached(next, m, p) {
      var k :| 0 <= k < i && cascade[..i][k].test.Test(m) && p in cascade[..i][k].also;
      assert next[k] == cascade[..i][k];
    }
    forall p | cascade[i].test.Test(m) && p in cascade[i].also ensures Reached(next, m, p) {
      assert next[i] == cascade[i];
    }
    forall p | Reached(next, m, p) && p != m
      ensures Reached(cascade[..i], m, p) || (cascade[i].test.Test(m) && p in cascade[i].also)
    {
      var k :| 0 <= k <= i && next[k].test.Test(m) && p in next[k].also;
      assert k < i ==> cascade[..i][k] == next[k];
    }
  }

  // ---------- The guard before invalidation loses nothing ----------

  /** Only catalogue keys are ever stored. */
  ghost predicate OnlyCatalogKeys(r: Rules, store: Store) {
    forall k :: k in store ==> GetCatalogCacheTtl(r, k).Some?
  }

  lemma {:induction false} TtlNeedsRule(rules: seq<ListRule>, key: string)
    ensures FirstTtl(rules, key).Some? <==> exists i :: 0 <= i < |rules| && rules[i].test.Test(key)
  {
    if rules != [] {
      TtlNeedsRule(rules[1..], key);
      if i :| 0 <= i < |rules| && rules[i].test.Test(key) {
        assert i > 0 ==> rules[1..][i - 1] == rules[i];
      }
    }
  }

  lemma {:induction false} QueryCutAt(p: string, rest: string)
    requires '?' !in p
    ensures BeforeQuery(p + "?" + rest) == p && BeforeQuery(p) == p
  {
    if p == "" {
      assert ("" + "?" + rest)[0] == '?';
    } else {
      QueryCutAt(p[1..], rest);
      assert (p + "?" + rest)[1..] == p[1..] + "?" + rest;
    }
  }

  /** A cacheable key's path is itself cacheable. */
  lemma KeyPathIsCacheable(r: Rules, key: string)
    requires PlainPaths(r) && GetCatalogCacheTtl(r, key).Some?
    ensures GetCatalogCacheTtl(r, KeyPath(key)).Some?
  {
    TtlNeedsRule(r.cacheable, key);
    var i :| 0 <= i < |r.cacheable| && r.cacheable[i].test.Test(key);
    var p := r.cacheable[i].test.path;
    assert r.cacheable[i] in r.cacheable;
    if key == p {
      QueryCutAt(p, "");
    } else {
      var rest := key[|p| + 1..];
      assert key == p + "?" + rest;
      QueryCutAt(p, rest);
    }
    TtlNeedsRule(r.cacheable, p);
    assert r.cacheable[i].test.Test(p);
  }

  /** When the guard says a mutation is unrelated, invalidating would have removed nothing. */
  lemma UnrelatedRemovesNothing(r: Rules, store: Store, m: string)
    requires PlainPaths(r) && OnlyCatalogKeys(r, store)
    requires !IsMutationCacheRelated(r, m)
    ensures Invalidated(r, store, m) == store
  {
    forall k | k in store ensures !Affects(r, m, KeyPath(k)) {
      KeyPathIsCacheable(r, k);
    }
  }
}
