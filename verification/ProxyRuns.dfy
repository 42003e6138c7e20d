/**
 * Runs of the proxy against an upstream that answers each viewer from versioned lists, with requests
 * served one after another: which hits are what the upstream would send, and when all of them are.
 */
module ProxyRuns {
  import opened Common
  import opened Paths
  import opened CatalogCache

  /** Who asks: the credential a request carries. */
  type Viewer = string

  /** How many writes have changed each list. */
  type Versions = string -> nat

  /**
   * `touches(m, p)`: a write of `m` changes the list at `p`, whatever the rules say. `render(u, key, v)` is
   * the body the upstream sends viewer `u` for `key` while the key's list is at version `v`.
   */
  datatype Site = Site(
    rules: Rules, touches: (string, string) -> bool, render: (Viewer, string, nat) -> string, start: Versions)

  function Written(site: Site, v: Versions, m: string): Versions {
    p => if site.touches(m, p) then v(p) + 1 else v(p)
  }

  function CurrentBody(site: Site, v: Versions, u: Viewer, key: string): string {
    site.render(u, key, v(KeyPath(key)))
  }

  datatype HttpMethod = GET | HEAD | OPTIONS | POST | PUT | PATCH | DELETE

  datatype Reply = Reply(status: int, contentType: string, body: string)

  predicate IsMutation(m: HttpMethod) {
    m in {POST, PUT, PATCH, DELETE}
  }

  predicate IsSuccess(status: int) {
    200 <= status < 300
  }

  predicate Includes(s: string, part: string) {
    exists i :: 0 <= i <= |s| && part <= s[i..]
  }

  /** Only a 200 with a JSON body fills the cache. */
  predicate Fills(reply: Reply) {
    reply.status == 200 && reply.body != "" && Includes(reply.contentType, "json")
  }

  /** The fill step, for a catalogue key. */
  function Filled(r: Rules, store: Store, key: string, reply: Reply, now: nat): Store {
    var ttl := GetCatalogCacheTtl(r, key);
    if Fills(reply) && ttl.Some?
    then store[key := Entry(reply.body, reply.contentType, reply.status, now, ttl.value)] else store
  }

  /** The invalidation step after a successful mutation of `suffix` sent as `suffix + search`. */
  function AfterMutation(r: Rules, store: Store, suffix: string, search: string): Store {
    if IsMutationCacheRelated(r, suffix) || IsMutationCacheRelated(r, suffix + search)
    then Invalidated(r, store, suffix) else store
  }

  /** Both steps, for a reply to any method. */
  function AfterReply(
      r: Rules, store: Store, m: HttpMethod, suffix: string, search: string, reply: Reply, now: nat): Store {
    if IsMutation(m) && IsSuccess(reply.status) then AfterMutation(r, store, suffix, search)
    else if m == GET then Filled(r, store, suffix + search, reply, now)
    else store
  }

  /** The cache lookup of a GET: no TTL, no lookup. */
  function Hit(r: Rules, store: Store, key: string, now: nat): Option<Entry> {
    if GetCatalogCacheTtl(r, key).Some? then Lookup(store, key, now) else None
  }

  function AfterHit(r: Rules, store: Store, key: string, now: nat): Store {
    if GetCatalogCacheTtl(r, key).Some? then AfterLookup(store, key, now) else store
  }

  // ---------- The forwarding route, before and after its upstream call ----------

  method BeforeUpstream(cache: Cache, m: HttpMethod, suffix: string, search: string, now: nat)
    returns (hit: Option<Entry>)
    modifies cache
    ensures m == GET ==> hit == Hit(cache.rules, old(cache.store), suffix + search, now)
    ensures m == GET ==> cache.store == AfterHit(cache.rules, old(cache.store), suffix + search, now)
    ensures m != GET ==> hit == None && cache.store == old(cache.store)
    ensures var key, was := suffix + search, old(cache.store);
      && (hit.Some? <==>
            && m == GET && GetCatalogCacheTtl(cache.rules, key).Some? && key in was
            && now - was[key].cachedAt <= was[key].ttlMs)
      && (hit.Some? ==> hit.value == was[key] && cache.store == was)
      && forall k :: k in was && k != key ==> k in cache.store && cache.store[k] == was[k]
  {
    hit := None;
    if m == GET {
      if GetCatalogCacheTtl(cache.rules, suffix + search).Some? {
        hit := cache.Get(suffix + search, now);
      }
    }
  }

  /** The keys whose list the rules reach from `suffix` are gone, and nothing else is. */
  ghost predicate Swept(r: Rules, was: Store, suffix: string, store: Store) {
    && store.Keys <= was.Keys
    && forall k :: k in was ==> (k in store <==> !Affects(r, suffix, KeyPath(k))) && (k in store ==> store[k] == was[k])
  }

  predicate StandsAt(part: string, s: string, i: nat) {
    i + |part| <= |s| && s[i..i + |part|] == part
  }

  /** The reply to a GET that fills: a JSON body with status 200 for a key of the catalogue. */
  ghost predicate FillsWith(r: Rules, key: string, reply: Reply) {
    && GetCatalogCacheTtl(r, key).Some? && reply.status == 200 && |reply.body| > 0
    && exists i :: StandsAt("json", reply.contentType, i)
  }

  lemma IncludesAt(s: string, part: string)
    ensures Includes(s, part) <==> exists i :: StandsAt(part, s, i)
  {
    if Includes(s, part) {
      var i :| 0 <= i <= |s| && part <= s[i..];
      assert s[i..][..|part|] == s[i..i + |part|];
      assert StandsAt(part, s, i);
    }
    if i: nat :| StandsAt(part, s, i) {
      assert s[i..][..|part|] == s[i..i + |part|];
      assert part <= s[i..];
    }
  }

  /** An invalidation leaves nothing it affects, guard or no guard. */
  lemma InvalidationIsWhole(r: Rules, store: Store, suffix: string, search: string)
    requires PlainPaths(r) && OnlyCatalogKeys(r, store)
    ensures AfterMutation(r, store, suffix, search) == Invalidated(r, store, suffix)
  {
    if !IsMutationCacheRelated(r, suffix) {
      UnrelatedRemovesNothing(r, store, suffix);
    }
  }

  lemma InvalidationSweeps(r: Rules, store: Store, suffix: string, search: string)
    ensures PlainPaths(r) && OnlyCatalogKeys(r, store) ==>
      Swept(r, store, suffix, AfterMutation(r, store, suffix, search))
  {
    if PlainPaths(r) && OnlyCatalogKeys(r, store) {
      InvalidationIsWhole(r, store, suffix, search);
    }
  }

  method AfterUpstream(cache: Cache, m: HttpMethod, suffix: string, search: string, reply: Reply, now: nat)
    modifies cache
    ensures cache.store == AfterReply(cache.rules, old(cache.store), m, suffix, search, reply, now)
    ensures PlainPaths(cache.rules) && OnlyCatalogKeys(cache.rules, old(cache.store)) ==>
      if (m == POST || m == PUT || m == PATCH || m == DELETE) && 200 <= reply.status <= 299
      then Swept(cache.rules, old(cache.store), suffix, cache.store)
      else if m == GET && FillsWith(cache.rules, suffix + search, reply)
      then cache.store == old(cache.store)[suffix + search :=
        Entry(reply.body, reply.contentType, 200, now, GetCatalogCacheTtl(cache.rules, suffix + search).value)]
      else cache.store == old(cache.store)
  {
    IncludesAt(reply.contentType, "json");
    InvalidationSweeps(cache.rules, cache.store, suffix, search);
    if IsMutation(m) && IsSuccess(reply.status) {
      if IsMutationCacheRelated(cache.rules, suffix) || IsMutationCacheRelated(cache.rules, suffix + search) {
        cache.InvalidateByPath(suffix);
      }
    }
    if m == GET && reply.status == 200 && |reply.body| > 0 {
      var ttl := GetCatalogCacheTtl(cache.rules, suffix + search);
      if ttl.Some? && Includes(reply.contentType, "json") {
        cache.Set(suffix + search, reply.body, reply.contentType, reply.status, ttl.value, now);
      }
    }
  }

  // ---------- Atomic requests ----------

  /** A request, what its upstream reply is if it is sent, and whether it changes anything upstream. */
  datatype Request =
    | Tick(ms: nat)
    | Forward(
        viewer: Viewer, m: HttpMethod, suffix: string, search: string, status: int, contentType: string, writes: bool)

  /** The upstream changes things for the four mutating verbs only, and says so with a 2xx. */
  predicate Proper(q: Request) {
    q.Forward? && q.writes ==> q.m != GET && q.m != HEAD && q.m != OPTIONS && 200 <= q.status <= 299
  }

  ghost predicate AllProper(qs: seq<Request>) {
    forall i :: 0 <= i < |qs| ==> Proper(qs[i])
  }

  /** `filledFor` remembers, per stored key, the viewer whose fetch filled it. */
  datatype World = World(now: nat, versions: Versions, store: Store, filledFor: map<string, Viewer>)

  function Begun(site: Site): World {
    World(0, site.start, map[], map[])
  }

  function AfterFetch(site: Site, w: World, q: Request): World
    requires q.Forward?
  {
    var key := q.suffix + q.search;
    var reply := Reply(q.status, q.contentType, CurrentBody(site, w.versions, q.viewer, key));
    w.(store := Filled(site.rules, AfterHit(site.rules, w.store, key, w.now), key, reply, w.now),
       filledFor := if Fills(reply) && GetCatalogCacheTtl(site.rules, key).Some?
                    then w.filledFor[key := q.viewer] else w.filledFor)
  }

  /** What the proxy's cache is after the upstream's reply. */
  function Replied(site: Site, w: World, q: Request): World
    requires q.Forward?
  {
    if q.m == GET then AfterFetch(site, w, q)
    else if IsMutation(q.m) && IsSuccess(q.status)
    then w.(store := AfterMutation(site.rules, w.store, q.suffix, q.search))
    else w
  }

  function Serve(site: Site, w: World, q: Request): World {
    match q
    case Tick(ms) => w.(now := w.now + ms)
    case Forward(_, m, suffix, search, _, _, writes) =>
      if m == GET && Hit(site.rules, w.store, suffix + search, w.now).Some? then w
      else Replied(site, w, q).(versions := if writes then Written(site, w.versions, suffix) else w.versions)
  }

  function Run(site: Site, qs: seq<Request>): World {
    if qs == [] then Begun(site) else Serve(site, Run(site, qs[..|qs| - 1]), qs[|qs| - 1])
  }

  // ---------- What is stored ----------

  /** The rules drop the list at `p` after every write that changes it. */
  ghost predicate CoversList(site: Site, p: string) {
    forall m :: site.touches(m, p) ==> Affects(site.rules, m, p)
  }

  /** What is stored under `key` is what the upstream holds now for the viewer whose fetch filled it. */
  ghost predicate KeyHolds(site: Site, w: World, key: string) {
    key in w.store ==>
      key in w.filledFor && w.store[key].body == CurrentBody(site, w.versions, w.filledFor[key], key)
  }

  lemma FetchKeepsKey(site: Site, w: World, q: Request, key: string)
    requires q.Forward? && OnlyCatalogKeys(site.rules, w.store) && KeyHolds(site, w, key)
    ensures OnlyCatalogKeys(site.rules, AfterFetch(site, w, q).store) && KeyHolds(site, AfterFetch(site, w, q), key)
  {
  }

  lemma ServeKeepsKey(site: Site, w: World, q: Request, key: string)
    requires PlainPaths(site.rules) && q.Forward? && Proper(q) && OnlyCatalogKeys(site.rules, w.store)
    requires KeyHolds(site, w, key) && CoversList(site, KeyPath(key))
    ensures OnlyCatalogKeys(site.rules, Serve(site, w, q).store) && KeyHolds(site, Serve(site, w, q), key)
  {
    FetchKeepsKey(site, w, q, key);
    InvalidationIsWhole(site.rules, w.store, q.suffix, q.search);
  }

  lemma {:induction false} RunIsCoherent(site: Site, qs: seq<Request>, key: string)
    requires PlainPaths(site.rules) && CoversList(site, KeyPath(key)) && AllProper(qs)
    ensures OnlyCatalogKeys(site.rules, Run(site, qs).store) && KeyHolds(site, Run(site, qs), key)
  {
    if qs != [] {
      var w, q := Run(site, qs[..|qs| - 1]), qs[|qs| - 1];
      RunIsCoherent(site, qs[..|qs| - 1], key);
      if q.Forward? {
        ServeKeepsKey(site, w, q, key);
      }
    }
  }

  // ---------- Which hits are right ----------

  /** If the request of `u` for `key` hits, it is served what the upstream would send `u` now. */
  ghost predicate ServedRight(site: Site, w: World, u: Viewer, key: string) {
    var hit := Hit(site.rules, w.store, key, w.now);
    hit.Some? ==> hit.value.body == CurrentBody(site, w.versions, u, key)
  }

  /**
   * While the rules cover the key's list, a hit is within its TTL and is what the upstream would
   * send now to the viewer who filled it: the right body for `u` exactly when it sends both the same.
   */
  lemma HitsAreCurrent(site: Site, qs: seq<Request>, u: Viewer, key: string)
    requires PlainPaths(site.rules) && CoversList(site, KeyPath(key)) && AllProper(qs)
    requires var w := Run(site, qs); Hit(site.rules, w.store, key, w.now).Some?
    ensures var w := Run(site, qs);
      && key in w.filledFor && Fresh(w.store[key], w.now)
      && ServedRight(site, w, w.filledFor[key], key)
      && (ServedRight(site, w, u, key) <==>
            CurrentBody(site, w.versions, w.filledFor[key], key) == CurrentBody(site, w.versions, u, key))
  {
    RunIsCoherent(site, qs, key);
  }

  // ---------- Runs that go wrong ----------

  /** A successful fetch of `key`. */
  function Get(u: Viewer, key: string): Request {
    BeforeQuerySpec(key);
    Forward(u, GET, KeyPath(key), key[|KeyPath(key)|..], 200, "json", false)
  }

  /** A write that took effect. */
  function Post(u: Viewer, m: string): Request {
    Forward(u, POST, m, "", 200, "json", true)
  }

  lemma RunExtends(site: Site, qs: seq<Request>, q: Request)
    ensures Run(site, qs + [q]) == Serve(site, Run(site, qs), q)
  {
    assert (qs + [q])[..|qs|] == qs;
  }

  lemma JsonIsIncluded()
    ensures Includes("json", "json")
  {
    assert "json" <= "json"[0..];
  }

  lemma FilledFromEmpty(r: Rules, key: string, reply: Reply, now: nat)
    requires GetCatalogCacheTtl(r, key).Some? && Fills(reply)
    ensures var ttl := GetCatalogCacheTtl(r, key).value;
      var filled := map[key := Entry(reply.body, reply.contentType, reply.status, now, ttl)];
      && Hit(r, map[], key, now).None? && Filled(r, AfterHit(r, map[], key, now), key, reply, now) == filled
      && Hit(r, filled, key, now) == Some(filled[key])
  {
  }

  lemma GetAsks(u: Viewer, key: string)
    ensures var q := Get(u, key); q.suffix + q.search == key
  {
    BeforeQuerySpec(key);
  }

  /** A fetch into an empty cache fills it. */
  lemma GetFills(site: Site, w: World, u: Viewer, key: string)
    requires GetCatalogCacheTtl(site.rules, key).Some? && w.store == map[]
    requires CurrentBody(site, w.versions, u, key) != ""
    ensures var t := Serve(site, w, Get(u, key));
      && t.now == w.now && t.versions == w.versions && t.filledFor == w.filledFor[key := u]
      && t.store.Keys == {key} && t.store[key].body == CurrentBody(site, w.versions, u, key)
      && t.store[key].cachedAt == w.now && Some(t.store[key].ttlMs) == GetCatalogCacheTtl(site.rules, key)
      && Hit(site.rules, t.store, key, t.now).Some?
  {
    GetAsks(u, key);
    JsonIsIncluded();
    FilledFromEmpty(site.rules, key, Reply(200, "json", CurrentBody(site, w.versions, u, key)), w.now);
  }

  /** Until the TTL is over, whoever asks is served what the viewer who asked first was sent. */
  lemma ServedUntilItExpires(site: Site, u: Viewer, key: string, ms: nat)
    requires var ttl := GetCatalogCacheTtl(site.rules, key); ttl.Some? && ms <= ttl.value
    requires site.render(u, key, site.start(KeyPath(key))) != ""
    ensures var w := Run(site, [Get(u, key), Tick(ms)]);
      var hit := Hit(site.rules, w.store, key, w.now);
      hit.Some? && hit.value.body == site.render(u, key, site.start(KeyPath(key))) && w.versions == site.start
  {
    RunExtends(site, [], Get(u, key));
    RunExtends(site, [Get(u, key)], Tick(ms));
    assert [] + [Get(u, key)] == [Get(u, key)] && [Get(u, key)] + [Tick(ms)] == [Get(u, key), Tick(ms)];
    GetFills(site, Begun(site), u, key);
  }

  /** What such a write leaves of a stored key it does not affect. */
  lemma PostLeaves(site: Site, w: World, u: Viewer, m: string, key: string)
    requires PlainPaths(site.rules) && OnlyCatalogKeys(site.rules, w.store)
    requires key in w.store && !Affects(site.rules, m, KeyPath(key))
    ensures var t := Serve(site, w, Post(u, m));
      && t.now == w.now && t.versions == Written(site, w.versions, m) && t.filledFor == w.filledFor
      && key in t.store && t.store[key] == w.store[key]
  {
    InvalidationIsWhole(site.rules, w.store, m, "");
  }

  /** A write that changes a list the rules do not drop leaves the old body to be served. */
  lemma UncoveredGoesStale(site: Site, u: Viewer, v: Viewer, m: string, key: string)
    requires PlainPaths(site.rules) && GetCatalogCacheTtl(site.rules, key).Some?
    requires site.touches(m, KeyPath(key)) && !Affects(site.rules, m, KeyPath(key))
    requires site.render(u, key, site.start(KeyPath(key))) != ""
    ensures var w := Run(site, [Get(u, key), Post(v, m)]);
      var hit := Hit(site.rules, w.store, key, w.now);
      && hit.Some? && hit.value.body == site.render(u, key, site.start(KeyPath(key)))
      && key in w.filledFor && w.filledFor[key] == u
      && CurrentBody(site, w.versions, u, key) == site.render(u, key, site.start(KeyPath(key)) + 1)
  {
    RunExtends(site, [], Get(u, key));
    RunExtends(site, [Get(u, key)], Post(v, m));
    assert [] + [Get(u, key)] == [Get(u, key)] && [Get(u, key)] + [Post(v, m)] == [Get(u, key), Post(v, m)];
    GetFills(site, Begun(site), u, key);
    PostLeaves(site, Run(site, [Get(u, key)]), v, m, key);
  }

  /** A write that took effect although its reply says it failed. */
  function FailedPost(u: Viewer, m: string, status: int): Request {
    Forward(u, POST, m, "", status, "json", true)
  }

  lemma FailedPostLeaves(site: Site, w: World, u: Viewer, m: string, status: int)
    requires status < 200 || status > 299
    ensures Serve(site, w, FailedPost(u, m, status)) == w.(versions := Written(site, w.versions, m))
  {
  }

  /** Such a write leaves the old body to be served, whether or not the rules drop the list after it. */
  lemma FailedWriteGoesStale(site: Site, u: Viewer, v: Viewer, m: string, status: int, key: string)
    requires GetCatalogCacheTtl(site.rules, key).Some? && site.touches(m, KeyPath(key))
    requires site.render(u, key, site.start(KeyPath(key))) != "" && (status < 200 || status > 299)
    ensures var w := Run(site, [Get(u, key), FailedPost(v, m, status)]);
      var hit := Hit(site.rules, w.store, key, w.now);
      && hit.Some? && hit.value.body == site.render(u, key, site.start(KeyPath(key)))
      && CurrentBody(site, w.versions, u, key) == site.render(u, key, site.start(KeyPath(key)) + 1)
  {
    var fetch, write := Get(u, key), FailedPost(v, m, status);
    RunExtends(site, [], fetch);
    RunExtends(site, [fetch], write);
    assert [] + [fetch] == [fetch] && [fetch] + [write] == [fetch, write];
    GetFills(site, Begun(site), u, key);
    FailedPostLeaves(site, Run(site, [fetch]), v, m, status);
  }

  /** The versions a list can reach. */
  ghost predicate Reachable(site: Site, p: string, n: nat) {
    n == site.start(p) || (n > site.start(p) && exists m :: site.touches(m, p))
  }

  /** Writes alone store nothing and move the list on one version each. */
  lemma {:induction false} PostsReach(site: Site, u: Viewer, m: string, p: string, k: nat) returns (qs: seq<Request>)
    requires k > 0 ==> site.touches(m, p)
    ensures AllProper(qs)
    ensures var w := Run(site, qs); w.store == map[] && w.versions(p) == site.start(p) + k
  {
    if k == 0 {
      return [];
    }
    qs := PostsReach(site, u, m, p, k - 1);
    RunExtends(site, qs, Post(u, m));
    qs := qs + [Post(u, m)];
  }

  /** Every viewer is sent the same for the key, at every version its list can reach. */
  ghost predicate SameForAll(site: Site, key: string) {
    forall u, v, n: nat :: Reachable(site, KeyPath(key), n) ==> site.render(u, key, n) == site.render(v, key, n)
  }

  /** A fetch into an empty cache is then served to all, right for them or not. */
  lemma FillIsServedToAll(site: Site, w: World, u: Viewer, v: Viewer, key: string)
    requires GetCatalogCacheTtl(site.rules, key).Some? && w.store == map[]
    requires CurrentBody(site, w.versions, u, key) != ""
    requires CurrentBody(site, w.versions, u, key) != CurrentBody(site, w.versions, v, key)
    ensures var t := Serve(site, w, Get(u, key));
      var hit := Hit(site.rules, t.store, key, t.now);
      hit.Some? && hit.value.body == CurrentBody(site, w.versions, u, key) && !ServedRight(site, t, v, key)
  {
    GetFills(site, w, u, key);
  }

  lemma ProperAppend(qs: seq<Request>, q: Request)
    requires AllProper(qs) && Proper(q)
    ensures AllProper(qs + [q])
  {
  }

  /** Where two viewers are sent different bodies, one can be served the other's. */
  lemma OthersBodyIsServed(site: Site, u: Viewer, v: Viewer, key: string, n: nat) returns (qs: seq<Request>)
    requires GetCatalogCacheTtl(site.rules, key).Some? && Reachable(site, KeyPath(key), n)
    requires site.render(u, key, n) != "" && site.render(u, key, n) != site.render(v, key, n)
    ensures AllProper(qs)
    ensures var w := Run(site, qs);
      var hit := Hit(site.rules, w.store, key, w.now);
      hit.Some? && hit.value.body == site.render(u, key, n) && !ServedRight(site, w, v, key)
  {
    var k := n - site.start(KeyPath(key));
    var m := if m :| site.touches(m, KeyPath(key)) then m else "";
    var posts := PostsReach(site, u, m, KeyPath(key), k);
    FillIsServedToAll(site, Run(site, posts), u, v, key);
    RunExtends(site, posts, Get(u, key));
    ProperAppend(posts, Get(u, key));
    return posts + [Get(u, key)];
  }

  // ---------- When every hit of every run is right ----------

  /** No body for the key is empty, and a viewer's bodies tell the versions apart. */
  ghost predicate Tells(site: Site, key: string) {
    && (forall u, n: nat :: site.render(u, key, n) != "")
    && (forall u, n: nat, o: nat :: site.render(u, key, n) == site.render(u, key, o) ==> n == o)
  }

  /** In every proper run a hit is what the upstream would send now to the viewer who filled it. */
  ghost predicate AlwaysCurrent(site: Site, key: string) {
    forall qs :: var w := Run(site, qs);
      AllProper(qs) && key in w.filledFor ==> ServedRight(site, w, w.filledFor[key], key)
  }

  /** In every proper run a hit is what the upstream would send now to the viewer who asks. */
  ghost predicate AlwaysRight(site: Site, key: string) {
    forall qs, u :: AllProper(qs) ==> ServedRight(site, Run(site, qs), u, key)
  }

  lemma CoveredIsCurrent(site: Site, key: string)
    requires PlainPaths(site.rules) && CoversList(site, KeyPath(key))
    ensures AlwaysCurrent(site, key)
  {
    forall qs | AllProper(qs) && key in Run(site, qs).filledFor
      ensures ServedRight(site, Run(site, qs), Run(site, qs).filledFor[key], key)
    {
      RunIsCoherent(site, qs, key);
    }
  }

  /** The hits under a key are current in every run exactly when the rules drop its list after all that changes it. */
  lemma CurrentIffCovered(site: Site, key: string)
    requires PlainPaths(site.rules) && GetCatalogCacheTtl(site.rules, key).Some? && Tells(site, key)
    ensures AlwaysCurrent(site, key) <==> CoversList(site, KeyPath(key))
  {
    if CoversList(site, KeyPath(key)) {
      CoveredIsCurrent(site, key);
    } else {
      var m :| site.touches(m, KeyPath(key)) && !Affects(site.rules, m, KeyPath(key));
      UncoveredGoesStale(site, "", "", m, key);
      var w := Run(site, [Get("", key), Post("", m)]);
      assert !ServedRight(site, w, w.filledFor[key], key);
    }
  }

  lemma RightIsCurrent(site: Site, key: string)
    requires AlwaysRight(site, key)
    ensures AlwaysCurrent(site, key)
  {
    forall qs | AllProper(qs) && key in Run(site, qs).filledFor
      ensures ServedRight(site, Run(site, qs), Run(site, qs).filledFor[key], key)
    {
    }
  }

  lemma {:induction false} VersionIsReachable(site: Site, qs: seq<Request>, p: string)
    ensures Reachable(site, p, Run(site, qs).versions(p))
  {
    if qs != [] {
      var init, q := qs[..|qs| - 1], qs[|qs| - 1];
      VersionIsReachable(site, init, p);
      StepsOneVersion(site, Run(site, init), q, p);
    }
  }

  lemma StepsOneVersion(site: Site, w: World, q: Request, p: string)
    ensures var n := Serve(site, w, q).versions(p);
      n == w.versions(p) || (n == w.versions(p) + 1 && exists m :: site.touches(m, p))
  {
  }

  lemma SharedIsRight(site: Site, key: string)
    requires PlainPaths(site.rules) && CoversList(site, KeyPath(key)) && SameForAll(site, key)
    ensures AlwaysRight(site, key)
  {
    forall qs, u | AllProper(qs) ensures ServedRight(site, Run(site, qs), u, key) {
      var w := Run(site, qs);
      if Hit(site.rules, w.store, key, w.now).Some? {
        HitsAreCurrent(site, qs, u, key);
        VersionIsReachable(site, qs, KeyPath(key));
      }
    }
  }

  /** The hits under a key are right for whoever asks exactly when moreover all are sent the same for it. */
  lemma RightIffCoveredAndShared(site: Site, key: string)
    requires PlainPaths(site.rules) && GetCatalogCacheTtl(site.rules, key).Some? && Tells(site, key)
    ensures AlwaysRight(site, key) <==> CoversList(site, KeyPath(key)) && SameForAll(site, key)
  {
    if AlwaysRight(site, key) {
      RightIsCurrent(site, key);
      CurrentIffCovered(site, key);
      forall u, v, n: nat | Reachable(site, KeyPath(key), n) ensures site.render(u, key, n) == site.render(v, key, n) {
        if site.render(u, key, n) != site.render(v, key, n) {
          var qs := OthersBodyIsServed(site, u, v, key, n);
        }
      }
    } else if CoversList(site, KeyPath(key)) && SameForAll(site, key) {
      SharedIsRight(site, key);
    }
  }

  /** The rules drop every list that can be cached after every write that changes it. */
  ghost predicate Covers(site: Site) {
    forall p :: '?' !in p && GetCatalogCacheTtl(site.rules, p).Some? ==> CoversList(site, p)
  }

  /** Every hit of every run is current exactly when the rules cover every list that can be cached. */
  lemma AllCurrentIffCovers(site: Site)
    requires PlainPaths(site.rules)
    requires forall key :: GetCatalogCacheTtl(site.rules, key).Some? ==> Tells(site, key)
    ensures (forall key :: GetCatalogCacheTtl(site.rules, key).Some? ==> AlwaysCurrent(site, key)) <==> Covers(site)
  {
    if Covers(site) {
      forall key | GetCatalogCacheTtl(site.rules, key).Some? ensures AlwaysCurrent(site, key) {
        KeyPathIsCacheable(site.rules, key);
        BeforeQuerySpec(key);
        CoveredIsCurrent(site, key);
      }
    }
    if forall key :: GetCatalogCacheTtl(site.rules, key).Some? ==> AlwaysCurrent(site, key) {
      forall p | '?' !in p && GetCatalogCacheTtl(site.rules, p).Some? ensures CoversList(site, p) {
        QueryCutAt(p, "");
        CurrentIffCovered(site, p);
      }
    }
  }
}
