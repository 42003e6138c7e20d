/**
 * Runs of the proxy with requests in flight across one another: a served body was current recently
 * enough, and it is current now exactly when no affecting write followed the read that fetched it.
 */
module OverlappingRuns {
  import opened Common
  import opened Paths
  import opened CatalogCache
  import opened ProxyRuns

  /** A GET that missed: who asks, when it began, what the upstream read for it so far, and at which step. */
  datatype Flight = Flight(viewer: Viewer, key: string, startedAt: nat, body: Option<string>, readAt: nat)

  /** How a stored body came about: for whom and when its fetch began, and the steps that read and stored it. */
  datatype Fill = Fill(viewer: Viewer, begun: nat, readAt: nat, filledAt: nat)

  /** `count` is the number of steps taken; `fills` remembers, per stored key, the fetch that filled it. */
  datatype Busy = Busy(
    count: nat, now: nat, versions: Versions, store: Store, fills: map<string, Fill>, flights: map<nat, Flight>)

  /** The steps of any number of requests, in any order. */
  datatype Step =
    | Pass(ms: nat)
    | Begin(id: nat, viewer: Viewer, key: string)
    | Read(id: nat)
    | Finish(id: nat, status: int, contentType: string)
    | Write(m: string)
    | Invalidate(m: string, search: string)

  /** What a read makes of a flight. */
  function Fetched(site: Site, b: Busy, f: Flight): Flight {
    f.(body := Some(CurrentBody(site, b.versions, f.viewer, f.key)), readAt := b.count)
  }

  function Acted(site: Site, b: Busy, s: Step): Busy {
    match s
    case Pass(ms) => b.(now := b.now + ms)
    case Begin(id, viewer, key) =>
      var store := AfterHit(site.rules, b.store, key, b.now);
      if Hit(site.rules, b.store, key, b.now).Some? || id in b.flights then b.(store := store)
      else b.(store := store, flights := b.flights[id := Flight(viewer, key, b.now, None, 0)])
    case Read(id) =>
      if id !in b.flights || b.flights[id].body.Some? then b
      else b.(flights := b.flights[id := Fetched(site, b, b.flights[id])])
    case Finish(id, status, contentType) =>
      if id !in b.flights || b.flights[id].body.None? then b
      else
        var f := b.flights[id];
        var reply := Reply(status, contentType, f.body.value);
        b.(store := Filled(site.rules, b.store, f.key, reply, b.now),
           fills := if Fills(reply) && GetCatalogCacheTtl(site.rules, f.key).Some?
                    then b.fills[f.key := Fill(f.viewer, f.startedAt, f.readAt, b.count)] else b.fills,
           flights := b.flights - {id})
    case Write(m) => b.(versions := Written(site, b.versions, m))
    case Invalidate(m, search) => b.(store := AfterMutation(site.rules, b.store, m, search))
  }

  function Advance(site: Site, b: Busy, s: Step): Busy {
    Acted(site, b, s).(count := b.count + 1)
  }

  function Start(site: Site): Busy {
    Busy(0, 0, site.start, map[], map[], map[])
  }

  // ---------- Runs and the states they pass through ----------

  ghost predicate Moves(site: Site, steps: seq<Step>, states: seq<Busy>, i: nat)
    requires i < |steps| && |states| == |steps| + 1
  {
    states[i + 1] == Advance(site, states[i], steps[i])
  }

  /** The steps lead from the start through these states. */
  ghost predicate IsRun(site: Site, steps: seq<Step>, states: seq<Busy>) {
    && |states| == |steps| + 1 && states[0] == Start(site)
    && forall i :: 0 <= i < |steps| ==> Moves(site, steps, states, i)
  }

  /** Every list of steps is a run. */
  lemma {:induction false} EveryStepsRun(site: Site, steps: seq<Step>)
    ensures exists states :: IsRun(site, steps, states)
  {
    if steps == [] {
      assert IsRun(site, steps, [Start(site)]);
    } else {
      var init, s := steps[..|steps| - 1], steps[|steps| - 1];
      EveryStepsRun(site, init);
      var states :| IsRun(site, init, states);
      var longer := states + [Advance(site, states[|init|], s)];
      forall i | 0 <= i < |steps| ensures Moves(site, steps, longer, i) {
        assert i < |init| ==> Moves(site, init, states, i);
      }
      assert IsRun(site, steps, longer);
    }
  }

  /** The finish of a flight is what put this entry under `k`, with this record. */
  predicate Brought(b: Busy, s: Step, k: string, e: Entry, f: Fill) {
    && s.Finish? && s.id in b.flights && b.flights[s.id].body == Some(e.body) && b.flights[s.id].key == k
    && e.cachedAt == b.now
    && f == Fill(b.flights[s.id].viewer, b.flights[s.id].startedAt, b.flights[s.id].readAt, b.count)
  }

  /** A key is in the store because it stayed there or because this step's finish brought it. */
  ghost predicate KeptOrBrought(b: Busy, s: Step, c: Busy, k: string)
    requires k in c.store
  {
    && k in c.fills
    && (|| (k in b.store && c.store[k] == b.store[k] && k in b.fills && c.fills[k] == b.fills[k])
        || Brought(b, s, k, c.store[k], c.fills[k]))
  }

  /** A flight is one from before, one begun just now, or one whose read just came. */
  ghost predicate FlownOn(site: Site, b: Busy, s: Step, c: Busy, id: nat)
    requires id in c.flights
  {
    || (id in b.flights && c.flights[id] == b.flights[id])
    || (s.Begin? && c.flights[id].body.None? && c.flights[id].startedAt == b.now)
    || (s.Read? && s.id == id && id in b.flights && c.flights[id] == Fetched(site, b, b.flights[id]))
  }

  ghost predicate Follows(site: Site, b: Busy, s: Step, c: Busy) {
    && c.count == b.count + 1 && b.now <= c.now
    && c.versions == (if s.Write? then Written(site, b.versions, s.m) else b.versions)
    && (forall k :: k in c.store ==> KeptOrBrought(b, s, c, k))
    && (forall id :: id in c.flights ==> FlownOn(site, b, s, c, id))
  }

  lemma AdvanceFollows(site: Site, b: Busy, s: Step)
    requires b.store.Keys <= b.fills.Keys
    ensures Follows(site, b, s, Advance(site, b, s))
  {
    StoreFollows(site, b, s);
    FlightsFollow(site, b, s);
  }

  lemma StoreFollows(site: Site, b: Busy, s: Step)
    requires b.store.Keys <= b.fills.Keys
    ensures var c := Advance(site, b, s); forall k :: k in c.store ==> KeptOrBrought(b, s, c, k)
  {
  }

  lemma FlightsFollow(site: Site, b: Busy, s: Step)
    ensures var c := Advance(site, b, s); forall id :: id in c.flights ==> FlownOn(site, b, s, c, id)
  {
  }

  lemma StepFollows(site: Site, steps: seq<Step>, states: seq<Busy>, n: nat)
    requires IsRun(site, steps, states) && n < |steps|
    requires states[n].store.Keys <= states[n].fills.Keys
    ensures Follows(site, states[n], steps[n], states[n + 1])
  {
    assert Moves(site, steps, states, n);
    AdvanceFollows(site, states[n], steps[n]);
  }

  // ---------- Bounded staleness ----------

  /** After `j` steps, no earlier than `since`, the upstream held `body` for `u` and `key`. */
  ghost predicate HeldAt(site: Site, states: seq<Busy>, j: nat, u: Viewer, key: string, body: string, since: nat)
    requires j < |states|
  {
    since <= states[j].now && body == CurrentBody(site, states[j].versions, u, key)
  }

  ghost predicate WasCurrent(
      site: Site, states: seq<Busy>, n: nat, u: Viewer, key: string, body: string, since: nat)
    requires n < |states|
  {
    exists j :: 0 <= j <= n && HeldAt(site, states, j, u, key, body, since)
  }

  /** Step `readAt`, before the first `n` were done, was a read that fetched `body` for `u` and `key`. */
  ghost predicate ReadFrom(site: Site, steps: seq<Step>, states: seq<Busy>, n: nat,
                           u: Viewer, key: string, body: string, readAt: nat)
    requires n <= |steps| && |states| == |steps| + 1
  {
    readAt < n && steps[readAt].Read? && body == CurrentBody(site, states[readAt].versions, u, key)
  }

  /** The stored body under `k` came from the read on record, some time after its fetch began. */
  ghost predicate StoredWell(site: Site, steps: seq<Step>, states: seq<Busy>, n: nat, k: string)
    requires n <= |steps| && |states| == |steps| + 1
    requires k in states[n].store && k in states[n].fills
  {
    var b := states[n];
    && ReadFrom(site, steps, states, n, b.fills[k].viewer, k, b.store[k].body, b.fills[k].readAt)
    && b.fills[k].begun <= b.store[k].cachedAt <= b.now
    && WasCurrent(site, states, n, b.fills[k].viewer, k, b.store[k].body, b.fills[k].begun)
  }

  ghost predicate FetchedWell(site: Site, steps: seq<Step>, states: seq<Busy>, n: nat, id: nat)
    requires n <= |steps| && |states| == |steps| + 1 && id in states[n].flights
  {
    var f := states[n].flights[id];
    && f.startedAt <= states[n].now
    && (f.body.Some? ==>
      && ReadFrom(site, steps, states, n, f.viewer, f.key, f.body.value, f.readAt)
      && WasCurrent(site, states, n, f.viewer, f.key, f.body.value, f.startedAt))
  }

  ghost predicate Recorded(site: Site, steps: seq<Step>, states: seq<Busy>, n: nat)
    requires n <= |steps| && |states| == |steps| + 1
  {
    && states[n].count == n && states[n].store.Keys <= states[n].fills.Keys
    && (forall k :: k in states[n].store ==> StoredWell(site, steps, states, n, k))
    && (forall id :: id in states[n].flights ==> FetchedWell(site, steps, states, n, id))
  }

  lemma KeyStaysRecorded(site: Site, steps: seq<Step>, states: seq<Busy>, n: nat, k: string)
    requires n < |steps| && |states| == |steps| + 1 && Recorded(site, steps, states, n)
    requires Follows(site, states[n], steps[n], states[n + 1]) && k in states[n + 1].store
    ensures k in states[n + 1].fills && StoredWell(site, steps, states, n + 1, k)
  {
    assert KeptOrBrought(states[n], steps[n], states[n + 1], k);
    if k in states[n].store {
      assert StoredWell(site, steps, states, n, k);
    }
    if steps[n].Finish? && steps[n].id in states[n].flights {
      assert FetchedWell(site, steps, states, n, steps[n].id);
    }
  }

  lemma FlightStaysRecorded(site: Site, steps: seq<Step>, states: seq<Busy>, n: nat, id: nat)
    requires n < |steps| && |states| == |steps| + 1 && Recorded(site, steps, states, n)
    requires Follows(site, states[n], steps[n], states[n + 1]) && id in states[n + 1].flights
    ensures FetchedWell(site, steps, states, n + 1, id)
  {
    assert FlownOn(site, states[n], steps[n], states[n + 1], id);
    if id in states[n].flights {
      assert FetchedWell(site, steps, states, n, id);
      var f := states[n].flights[id];
      var now := CurrentBody(site, states[n].versions, f.viewer, f.key);
      assert HeldAt(site, states, n, f.viewer, f.key, now, f.startedAt);
    }
  }

  lemma {:induction false} RunIsRecorded(site: Site, steps: seq<Step>, states: seq<Busy>, n: nat)
    requires IsRun(site, steps, states) && n <= |steps|
    ensures Recorded(site, steps, states, n)
  {
    if n > 0 {
      RunIsRecorded(site, steps, states, n - 1);
      StepFollows(site, steps, states, n - 1);
      forall k | k in states[n].store ensures k in states[n].fills && StoredWell(site, steps, states, n, k) {
        KeyStaysRecorded(site, steps, states, n - 1, k);
      }
      forall id | id in states[n].flights ensures FetchedWell(site, steps, states, n, id) {
        FlightStaysRecorded(site, steps, states, n - 1, id);
      }
    }
  }

  /**
   * However requests overlap, a body served from the cache was what the upstream held for the
   * viewer who filled it at a moment no earlier than now minus the TTL minus the latency of the fetch that brought it.
   */
  lemma StalenessIsBounded(site: Site, steps: seq<Step>, states: seq<Busy>, key: string)
    requires IsRun(site, steps, states)
    requires var b := states[|steps|]; Hit(site.rules, b.store, key, b.now).Some?
    ensures var b := states[|steps|];
      && key in b.fills && b.fills[key].begun <= b.store[key].cachedAt
      && (var latency := b.store[key].cachedAt - b.fills[key].begun;
          WasCurrent(site, states, |steps|, b.fills[key].viewer, key, b.store[key].body,
                     Max(0, b.now - b.store[key].ttlMs - latency)))
  {
    var b := states[|steps|];
    RunIsRecorded(site, steps, states, |steps|);
    assert StoredWell(site, steps, states, |steps|, key);
    var u, body, since := b.fills[key].viewer, b.store[key].body, b.fills[key].begun;
    var j :| 0 <= j <= |steps| && HeldAt(site, states, j, u, key, body, since);
    var latency := b.store[key].cachedAt - since;
    assert HeldAt(site, states, j, u, key, body, Max(0, b.now - b.store[key].ttlMs - latency));
  }

  // ---------- Which hits are current ----------

  /** The write changes the list at `p`. */
  predicate Touches(site: Site, s: Step, p: string) {
    s.Write? && site.touches(s.m, p)
  }

  /** How many of the steps in `[from, until)` are writes to the list at `p`. */
  function Touching(site: Site, steps: seq<Step>, from: nat, until: nat, p: string): nat
    requires from <= until <= |steps|
    decreases until
  {
    if until == from then 0
    else Touching(site, steps, from, until - 1, p) + if Touches(site, steps[until - 1], p) then 1 else 0
  }

  ghost predicate Untouched(site: Site, steps: seq<Step>, from: nat, until: nat, p: string)
    requires until <= |steps|
  {
    forall k :: from <= k < until ==> !Touches(site, steps[k], p)
  }

  lemma {:induction false} NoneTouching(site: Site, steps: seq<Step>, from: nat, until: nat, p: string)
    requires from <= until <= |steps|
    ensures Touching(site, steps, from, until, p) == 0 <==> Untouched(site, steps, from, until, p)
    decreases until
  {
    if from < until {
      NoneTouching(site, steps, from, until - 1, p);
    }
  }

  /** A list's version grows by one with each write that touches it and with nothing else. */
  lemma {:induction false} VersionsCountWrites(
      site: Site, steps: seq<Step>, states: seq<Busy>, from: nat, until: nat, p: string)
    requires IsRun(site, steps, states) && from <= until <= |steps|
    ensures states[until].versions(p) == states[from].versions(p) + Touching(site, steps, from, until, p)
    decreases until
  {
    if from < until {
      VersionsCountWrites(site, steps, states, from, until - 1, p);
      RunIsRecorded(site, steps, states, until - 1);
      StepFollows(site, steps, states, until - 1);
    }
  }

  /** In every run a stored body is behind by exactly the writes to its list since the read that fetched it. */
  lemma StoredLagsByItsWrites(site: Site, steps: seq<Step>, states: seq<Busy>, key: string)
    requires IsRun(site, steps, states) && key in states[|steps|].store
    ensures var b := states[|steps|];
      && key in b.fills && b.fills[key].readAt < |steps| && steps[b.fills[key].readAt].Read?
      && (var lag := Touching(site, steps, b.fills[key].readAt, |steps|, KeyPath(key));
          && lag <= b.versions(KeyPath(key))
          && b.store[key].body == site.render(b.fills[key].viewer, key, b.versions(KeyPath(key)) - lag))
  {
    RunIsRecorded(site, steps, states, |steps|);
    assert StoredWell(site, steps, states, |steps|, key);
    VersionsCountWrites(site, steps, states, states[|steps|].fills[key].readAt, |steps|, KeyPath(key));
  }

  /** The bodies the viewer is sent for the key tell the versions of its list apart. */
  ghost predicate TellsVersions(site: Site, u: Viewer, key: string) {
    forall v: nat, w: nat :: site.render(u, key, v) == site.render(u, key, w) ==> v == w
  }

  /**
   * If no write touched its list after the read that fetched it, a hit is right for `u` exactly
   * when the upstream sends `u` and the viewer who filled it the same; where bodies tell the
   * versions apart it is right for the latter only then.
   */
  lemma HitIsCurrentExactlyWhen(site: Site, steps: seq<Step>, states: seq<Busy>, u: Viewer, key: string)
    requires IsRun(site, steps, states)
    requires var b := states[|steps|]; Hit(site.rules, b.store, key, b.now).Some?
    ensures var b := states[|steps|];
      && key in b.fills && b.fills[key].readAt < |steps|
      && (var sent := CurrentBody(site, b.versions, b.fills[key].viewer, key);
          var wanted := CurrentBody(site, b.versions, u, key);
          var untouched := Untouched(site, steps, b.fills[key].readAt, |steps|, KeyPath(key));
          && (untouched ==> (b.store[key].body == wanted <==> sent == wanted))
          && (untouched ==> b.store[key].body == sent)
          && (TellsVersions(site, b.fills[key].viewer, key) ==> (b.store[key].body == sent <==> untouched)))
  {
    StoredLagsByItsWrites(site, steps, states, key);
    NoneTouching(site, steps, states[|steps|].fills[key].readAt, |steps|, KeyPath(key));
  }

  // ---------- Runs all of whose hits are current ----------

  /** Step `at` finishes the flight that read for `key` at step `readAt`. */
  ghost predicate FinishedAt(steps: seq<Step>, states: seq<Busy>, key: string, readAt: nat, at: nat)
    requires |states| == |steps| + 1
  {
    && at < |steps| && steps[at].Finish? && steps[at].id in states[at].flights
    && (var f := states[at].flights[steps[at].id];
        f.body.Some? && f.key == key && f.readAt == readAt)
  }

  /** No invalidation after step `at` and before step `n` reached the list at `p`. */
  ghost predicate Standing(r: Rules, steps: seq<Step>, at: nat, n: nat, p: string)
    requires n <= |steps|
  {
    forall j :: at < j < n && steps[j].Invalidate? ==> !Affects(r, steps[j].m, p)
  }

  ghost predicate FilledAndStands(site: Site, steps: seq<Step>, states: seq<Busy>, n: nat, k: string)
    requires n <= |steps| && |states| == |steps| + 1 && k in states[n].fills
  {
    var f := states[n].fills[k];
    && FinishedAt(steps, states, k, f.readAt, f.filledAt)
    && Standing(site.rules, steps, f.filledAt, n, KeyPath(k))
  }

  ghost predicate AllStand(site: Site, steps: seq<Step>, states: seq<Busy>, n: nat)
    requires n <= |steps| && |states| == |steps| + 1
  {
    && states[n].store.Keys <= states[n].fills.Keys
    && forall k :: k in states[n].store ==> FilledAndStands(site, steps, states, n, k)
  }

  /** An invalidation leaves no key it affects, guard or no guard. */
  lemma InvalidateLeavesNone(site: Site, b: Busy, m: string, search: string)
    requires PlainPaths(site.rules) && OnlyCatalogKeys(site.rules, b.store)
    ensures forall k :: k in Advance(site, b, Invalidate(m, search)).store ==> !Affects(site.rules, m, KeyPath(k))
  {
    if !IsMutationCacheRelated(site.rules, m) {
      UnrelatedRemovesNothing(site.rules, b.store, m);
    }
    assert AfterMutation(site.rules, b.store, m, search) == Invalidated(site.rules, b.store, m);
  }

  lemma StepKeepsCatalogued(site: Site, b: Busy, s: Step)
    requires OnlyCatalogKeys(site.rules, b.store)
    ensures OnlyCatalogKeys(site.rules, Advance(site, b, s).store)
  {
  }

  lemma {:induction false} RunIsCatalogued(site: Site, steps: seq<Step>, states: seq<Busy>, n: nat)
    requires IsRun(site, steps, states) && n <= |steps|
    ensures OnlyCatalogKeys(site.rules, states[n].store)
  {
    if n > 0 {
      RunIsCatalogued(site, steps, states, n - 1);
      assert Moves(site, steps, states, n - 1);
      StepKeepsCatalogued(site, states[n - 1], steps[n - 1]);
    }
  }

  /** What is left in the store was not reached by the step, if that was an invalidation. */
  lemma StepReachesNoneLeft(site: Site, steps: seq<Step>, states: seq<Busy>, n: nat, k: string)
    requires PlainPaths(site.rules) && IsRun(site, steps, states) && n < |steps| && k in states[n + 1].store
    ensures steps[n].Invalidate? ==> !Affects(site.rules, steps[n].m, KeyPath(k))
  {
    assert Moves(site, steps, states, n);
    RunIsCatalogued(site, steps, states, n);
    if steps[n].Invalidate? {
      InvalidateLeavesNone(site, states[n], steps[n].m, steps[n].search);
    }
  }

  lemma KeyStillStands(site: Site, steps: seq<Step>, states: seq<Busy>, n: nat, k: string)
    requires n < |steps| && |states| == |steps| + 1 && states[n].count == n && AllStand(site, steps, states, n)
    requires Follows(site, states[n], steps[n], states[n + 1]) && k in states[n + 1].store
    requires steps[n].Invalidate? ==> !Affects(site.rules, steps[n].m, KeyPath(k))
    ensures k in states[n + 1].fills && FilledAndStands(site, steps, states, n + 1, k)
  {
    assert KeptOrBrought(states[n], steps[n], states[n + 1], k);
    if k in states[n].store {
      assert FilledAndStands(site, steps, states, n, k);
    }
  }

  lemma OneMoreStands(site: Site, steps: seq<Step>, states: seq<Busy>, n: nat)
    requires PlainPaths(site.rules) && IsRun(site, steps, states) && 0 < n <= |steps|
    requires AllStand(site, steps, states, n - 1)
    ensures AllStand(site, steps, states, n)
  {
    RunIsRecorded(site, steps, states, n - 1);
    StepFollows(site, steps, states, n - 1);
    forall k | k in states[n].store ensures k in states[n].fills && FilledAndStands(site, steps, states, n, k) {
      StepReachesNoneLeft(site, steps, states, n - 1, k);
      KeyStillStands(site, steps, states, n - 1, k);
    }
  }

  lemma {:induction false} RunStands(site: Site, steps: seq<Step>, states: seq<Busy>, n: nat)
    requires PlainPaths(site.rules) && IsRun(site, steps, states) && n <= |steps|
    ensures AllStand(site, steps, states, n)
  {
    if n > 0 {
      RunStands(site, steps, states, n - 1);
      OneMoreStands(site, steps, states, n);
    }
  }

  /** The write at step `i`, if it is one, is followed by its invalidation before step `n`. */
  ghost predicate Answered(steps: seq<Step>, n: nat, i: nat)
    requires i < n <= |steps|
  {
    steps[i].Write? ==> exists j :: i < j < n && steps[j].Invalidate? && steps[j].m == steps[i].m
  }

  /** If step `at` finishes a flight, no write touched its list since the flight read it. */
  ghost predicate FinishesUndisturbed(site: Site, steps: seq<Step>, states: seq<Busy>, at: nat)
    requires at < |steps| && |states| == |steps| + 1
  {
    forall key, readAt :: FinishedAt(steps, states, key, readAt, at) ==>
      Untouched(site, steps, readAt, at, KeyPath(key))
  }

  /** The first `n` steps leave no write without its invalidation, and no write parts a read from its finish. */
  ghost predicate Tidy(site: Site, steps: seq<Step>, states: seq<Busy>, n: nat)
    requires n <= |steps| && |states| == |steps| + 1
  {
    && (forall i :: 0 <= i < n ==> Answered(steps, n, i))
    && (forall at :: 0 <= at < n ==> FinishesUndisturbed(site, steps, states, at))
  }

  lemma StandingIsUntouched(site: Site, steps: seq<Step>, states: seq<Busy>, key: string, f: Fill)
    requires CoversList(site, KeyPath(key))
    requires |states| == |steps| + 1 && Tidy(site, steps, states, |steps|)
    requires FinishedAt(steps, states, key, f.readAt, f.filledAt)
    requires Standing(site.rules, steps, f.filledAt, |steps|, KeyPath(key))
    ensures Untouched(site, steps, f.readAt, |steps|, KeyPath(key))
  {
    assert FinishesUndisturbed(site, steps, states, f.filledAt);
    forall k | f.readAt <= k < |steps| ensures !Touches(site, steps[k], KeyPath(key)) {
      if f.filledAt <= k && steps[k].Write? {
        assert Answered(steps, |steps|, k);
      }
    }
  }

  /**
   * If no write touches a list between a flight's read of it and the flight's finish, and
   * every write is followed by its invalidation, the hits under the keys of every list that
   * the rules cover are current.
   */
  lemma TidyHitsAreCurrent(site: Site, steps: seq<Step>, states: seq<Busy>, key: string)
    requires PlainPaths(site.rules) && IsRun(site, steps, states) && Tidy(site, steps, states, |steps|)
    requires CoversList(site, KeyPath(key))
    ensures var b := states[|steps|];
      var hit := Hit(site.rules, b.store, key, b.now);
      hit.Some? ==>
        key in b.fills && hit.value.body == CurrentBody(site, b.versions, b.fills[key].viewer, key)
  {
    var b := states[|steps|];
    if Hit(site.rules, b.store, key, b.now).Some? {
      RunStands(site, steps, states, |steps|);
      assert FilledAndStands(site, steps, states, |steps|, key);
      StandingIsUntouched(site, steps, states, key, b.fills[key]);
      HitIsCurrentExactlyWhen(site, steps, states, b.fills[key].viewer, key);
    }
  }

  // ---------- Requests served one after another are such a run ----------

  /** The steps of one request when nothing comes between them. */
  function StepsOf(q: Request): seq<Step> {
    match q
    case Tick(ms) => [Pass(ms)]
    case Forward(viewer, m, suffix, search, status, contentType, writes) =>
      if m == GET then [Begin(0, viewer, suffix + search), Read(0), Finish(0, status, contentType)]
      else if IsMutation(m) && IsSuccess(status)
      then (if writes then [Write(suffix)] else []) + [Invalidate(suffix, search)]
      else if writes then [Write(suffix)] else []
  }

  function Flat(lists: seq<seq<Step>>): seq<Step> {
    if lists == [] then [] else Flat(lists[..|lists| - 1]) + lists[|lists| - 1]
  }

  /** The steps of the requests, those of each after those of the one before it. */
  function InTurn(qs: seq<Request>): seq<Step> {
    Flat(seq(|qs|, i requires 0 <= i < |qs| => StepsOf(qs[i])))
  }

  /** The same clock, lists and cache, filled for the same viewers, and nothing in flight. */
  ghost predicate Settled(b: Busy, w: World) {
    && b.now == w.now && b.versions == w.versions && b.store == w.store && b.flights == map[]
    && b.fills.Keys == w.filledFor.Keys && forall k :: k in b.fills ==> b.fills[k].viewer == w.filledFor[k]
  }

  /** What one GET does up to its read, when its steps follow one another. */
  lemma HalfFetch(site: Site, b: Busy, u: Viewer, key: string)
    requires b.flights == map[]
    ensures var read := Advance(site, Advance(site, b, Begin(0, u, key)), Read(0));
      && read.now == b.now && read.versions == b.versions && read.fills == b.fills && read.count == b.count + 2
      && read.store == AfterHit(site.rules, b.store, key, b.now)
      && read.flights == if Hit(site.rules, b.store, key, b.now).Some? then map[]
           else map[0 := Flight(u, key, b.now, Some(CurrentBody(site, b.versions, u, key)), b.count + 1)]
  {
  }

  lemma HitLeaves(r: Rules, store: Store, key: string, now: nat)
    requires Hit(r, store, key, now).Some?
    ensures AfterHit(r, store, key, now) == store
  {
  }

  /** And what its finish makes of it. */
  lemma WholeFetch(site: Site, b: Busy, w: World, q: Request, read: Busy)
    requires Settled(b, w) && q.Forward? && q.m == GET && !q.writes
    requires read == Advance(site, Advance(site, b, Begin(0, q.viewer, q.suffix + q.search)), Read(0))
    ensures 0 in read.flights ==> read.flights[0].readAt == b.count + 1
    ensures Settled(Advance(site, read, Finish(0, q.status, q.contentType)), Serve(site, w, q))
  {
    var key := q.suffix + q.search;
    HalfFetch(site, b, q.viewer, key);
    if Hit(site.rules, b.store, key, b.now).Some? {
      HitLeaves(site.rules, b.store, key, b.now);
    }
  }

  lemma WholeWrite(site: Site, b: Busy, w: World, q: Request)
    requires Settled(b, w) && q.Forward? && q.m != GET && IsMutation(q.m) && IsSuccess(q.status)
    ensures var written := if q.writes then Advance(site, b, Write(q.suffix)) else b;
      Settled(Advance(site, written, Invalidate(q.suffix, q.search)), Serve(site, w, q))
  {
  }

  /** The steps `asked` are the next ones of the run. */
  predicate Next(steps: seq<Step>, n: nat, asked: seq<Step>) {
    n + |asked| <= |steps| && forall i :: 0 <= i < |asked| ==> steps[n + i] == asked[i]
  }

  lemma ThenNext(head: seq<Step>, asked: seq<Step>, steps: seq<Step>)
    requires head + asked <= steps
    ensures head <= steps && Next(steps, |head|, asked)
  {
  }

  lemma FetchSettles(site: Site, steps: seq<Step>, states: seq<Busy>, n: nat, w: World, q: Request)
    requires IsRun(site, steps, states) && n <= |steps| && Settled(states[n], w) && states[n].count == n
    requires q.Forward? && q.m == GET && !q.writes && Next(steps, n, StepsOf(q))
    ensures Settled(states[n + 3], Serve(site, w, q))
    ensures 0 in states[n + 2].flights ==> states[n + 2].flights[0].readAt == n + 1
  {
    var asked := StepsOf(q);
    assert steps[n + 0] == asked[0] && steps[n + 1] == asked[1] && steps[n + 2] == asked[2];
    assert Moves(site, steps, states, n) && Moves(site, steps, states, n + 1) && Moves(site, steps, states, n + 2);
    WholeFetch(site, states[n], w, q, states[n + 2]);
  }

  lemma WriteSettles(site: Site, steps: seq<Step>, states: seq<Busy>, n: nat, w: World, q: Request)
    requires IsRun(site, steps, states) && n <= |steps| && Settled(states[n], w)
    requires q.Forward? && q.m != GET && IsMutation(q.m) && IsSuccess(q.status) && Next(steps, n, StepsOf(q))
    ensures Settled(states[n + |StepsOf(q)|], Serve(site, w, q))
  {
    var asked := StepsOf(q);
    assert steps[n + 0] == asked[0];
    assert Moves(site, steps, states, n);
    if q.writes {
      assert steps[n + 1] == asked[1];
      assert Moves(site, steps, states, n + 1);
    }
    WholeWrite(site, states[n], w, q);
  }

  lemma ServeSettles(site: Site, steps: seq<Step>, states: seq<Busy>, n: nat, w: World, q: Request)
    requires IsRun(site, steps, states) && n <= |steps| && Settled(states[n], w) && states[n].count == n
    requires Proper(q) && Next(steps, n, StepsOf(q))
    ensures Settled(states[n + |StepsOf(q)|], Serve(site, w, q))
  {
    if q.Tick? {
      assert steps[n + 0] == StepsOf(q)[0];
      assert Moves(site, steps, states, n);
    } else if q.m == GET {
      FetchSettles(site, steps, states, n, w, q);
    } else if IsMutation(q.m) && IsSuccess(q.status) {
      WriteSettles(site, steps, states, n, w, q);
    }
  }

  lemma AnsweredLater(steps: seq<Step>, n: nat, later: nat, i: nat)
    requires i < n <= later <= |steps| && Answered(steps, n, i)
    ensures Answered(steps, later, i)
  {
  }

  lemma NextIsAnswered(steps: seq<Step>, n: nat, q: Request, i: nat)
    requires Proper(q) && Next(steps, n, StepsOf(q)) && n <= i < n + |StepsOf(q)|
    ensures Answered(steps, n + |StepsOf(q)|, i)
  {
    var asked := StepsOf(q);
    assert steps[n + (i - n)] == asked[i - n];
    if steps[i].Write? {
      assert steps[n + 1] == asked[1];
    }
  }

  lemma NextIsUndisturbed(site: Site, steps: seq<Step>, states: seq<Busy>, n: nat, w: World, q: Request, at: nat)
    requires IsRun(site, steps, states) && n <= |steps| && Settled(states[n], w) && states[n].count == n
    requires Proper(q) && Next(steps, n, StepsOf(q)) && n <= at < n + |StepsOf(q)|
    ensures FinishesUndisturbed(site, steps, states, at)
  {
    var asked := StepsOf(q);
    assert steps[n + (at - n)] == asked[at - n];
    if steps[at].Finish? {
      FetchSettles(site, steps, states, n, w, q);
      assert steps[n + 1] == asked[1];
    }
  }

  lemma ServeKeepsTidy(site: Site, steps: seq<Step>, states: seq<Busy>, n: nat, w: World, q: Request)
    requires IsRun(site, steps, states) && n <= |steps| && Settled(states[n], w) && states[n].count == n
    requires Proper(q) && Next(steps, n, StepsOf(q)) && Tidy(site, steps, states, n)
    ensures Tidy(site, steps, states, n + |StepsOf(q)|)
  {
    var later := n + |StepsOf(q)|;
    forall i | 0 <= i < later ensures Answered(steps, later, i) {
      if i < n {
        AnsweredLater(steps, n, later, i);
      } else {
        NextIsAnswered(steps, n, q, i);
      }
    }
    forall at | 0 <= at < later ensures FinishesUndisturbed(site, steps, states, at) {
      if n <= at {
        NextIsUndisturbed(site, steps, states, n, w, q, at);
      }
    }
  }

  lemma ServedInTurn(site: Site, steps: seq<Step>, states: seq<Busy>, n: nat, w: World, q: Request)
    requires IsRun(site, steps, states) && n <= |steps| && Tidy(site, steps, states, n)
    requires Proper(q) && Settled(states[n], w) && Next(steps, n, StepsOf(q))
    ensures Tidy(site, steps, states, n + |StepsOf(q)|) && Settled(states[n + |StepsOf(q)|], Serve(site, w, q))
  {
    RunIsRecorded(site, steps, states, n);
    ServeSettles(site, steps, states, n, w, q);
    ServeKeepsTidy(site, steps, states, n, w, q);
  }

  ghost predicate ServesAt(site: Site, qs: seq<Request>, worlds: seq<World>, n: nat)
    requires |worlds| == |qs| + 1 && n < |qs|
  {
    worlds[n + 1] == Serve(site, worlds[n], qs[n])
  }

  /** The worlds a run of atomic requests goes through. */
  ghost predicate Serves(site: Site, qs: seq<Request>, worlds: seq<World>) {
    && |worlds| == |qs| + 1 && worlds[0] == Begun(site)
    && forall n: nat :: n < |qs| ==> ServesAt(site, qs, worlds, n)
  }

  lemma ServesOneMore(site: Site, init: seq<Request>, q: Request, worlds: seq<World>)
    requires Serves(site, init, worlds)
    ensures Serves(site, init + [q], worlds + [Serve(site, worlds[|init|], q)])
  {
    var qs, more := init + [q], worlds + [Serve(site, worlds[|init|], q)];
    forall n: nat | n < |qs| ensures ServesAt(site, qs, more, n) {
      if n < |init| {
        assert ServesAt(site, init, worlds, n);
      }
    }
  }

  lemma {:induction false} WorldsOf(site: Site, qs: seq<Request>) returns (worlds: seq<World>)
    ensures Serves(site, qs, worlds) && worlds[|qs|] == Run(site, qs)
  {
    if qs == [] {
      return [Begun(site)];
    }
    var init, q := qs[..|qs| - 1], qs[|qs| - 1];
    worlds := WorldsOf(site, init);
    ServesOneMore(site, init, q, worlds);
    assert init + [q] == qs;
    worlds := worlds + [Serve(site, worlds[|init|], q)];
  }

  ghost predicate PlacedAt(lists: seq<seq<Step>>, steps: seq<Step>, ends: seq<nat>, i: nat)
    requires |ends| == |lists| + 1 && i < |lists|
  {
    ends[i] <= |steps| && ends[i + 1] == ends[i] + |lists[i]| && Next(steps, ends[i], lists[i])
  }

  /** Where the steps of each list end when they follow one another. */
  ghost predicate Placed(lists: seq<seq<Step>>, steps: seq<Step>, ends: seq<nat>) {
    && |ends| == |lists| + 1 && ends[0] == 0
    && forall i: nat :: i < |lists| ==> PlacedAt(lists, steps, ends, i)
  }

  lemma PlacedOneMore(init: seq<seq<Step>>, asked: seq<Step>, steps: seq<Step>, ends: seq<nat>)
    requires Placed(init, steps, ends) && ends[|init|] <= |steps| && Next(steps, ends[|init|], asked)
    ensures Placed(init + [asked], steps, ends + [ends[|init|] + |asked|])
  {
    var lists, more := init + [asked], ends + [ends[|init|] + |asked|];
    forall i: nat | i < |lists| ensures PlacedAt(lists, steps, more, i) {
      if i < |init| {
        assert PlacedAt(init, steps, ends, i);
      }
    }
  }

  lemma {:induction false} EndsOf(lists: seq<seq<Step>>, steps: seq<Step>) returns (ends: seq<nat>)
    requires Flat(lists) <= steps
    ensures Placed(lists, steps, ends) && ends[|lists|] == |Flat(lists)|
  {
    if lists == [] {
      return [0];
    }
    var init, asked := lists[..|lists| - 1], lists[|lists| - 1];
    ThenNext(Flat(init), asked, steps);
    ends := EndsOf(init, steps);
    PlacedOneMore(init, asked, steps, ends);
    assert init + [asked] == lists;
    ends := ends + [ends[|init|] + |asked|];
  }

  ghost predicate Asks(qs: seq<Request>, lists: seq<seq<Step>>) {
    |lists| == |qs| && forall i :: 0 <= i < |qs| ==> lists[i] == StepsOf(qs[i])
  }

  lemma OneMoreInTurn(
      site: Site, qs: seq<Request>, worlds: seq<World>, lists: seq<seq<Step>>, ends: seq<nat>, i: nat,
      steps: seq<Step>, states: seq<Busy>)
    requires IsRun(site, steps, states) && Serves(site, qs, worlds) && AllProper(qs) && i < |qs|
    requires Asks(qs, lists) && Placed(lists, steps, ends)
    requires ends[i] <= |steps| && Tidy(site, steps, states, ends[i]) && Settled(states[ends[i]], worlds[i])
    ensures ends[i + 1] <= |steps| && Tidy(site, steps, states, ends[i + 1])
    ensures Settled(states[ends[i + 1]], worlds[i + 1])
  {
    assert ServesAt(site, qs, worlds, i) && PlacedAt(lists, steps, ends, i);
    ServedInTurn(site, steps, states, ends[i], worlds[i], qs[i]);
  }

  lemma {:induction false} PrefixIsTidy(
      site: Site, qs: seq<Request>, worlds: seq<World>, lists: seq<seq<Step>>, ends: seq<nat>, i: nat,
      steps: seq<Step>, states: seq<Busy>)
    requires IsRun(site, steps, states) && Serves(site, qs, worlds) && AllProper(qs) && i <= |qs|
    requires Asks(qs, lists) && Placed(lists, steps, ends)
    ensures ends[i] <= |steps| && Tidy(site, steps, states, ends[i]) && Settled(states[ends[i]], worlds[i])
  {
    if i > 0 {
      PrefixIsTidy(site, qs, worlds, lists, ends, i - 1, steps, states);
      OneMoreInTurn(site, qs, worlds, lists, ends, i - 1, steps, states);
    }
  }

  /** A proper run of atomic requests is tidy, with the same clock, lists, cache and viewers it was filled for. */
  lemma AtomicRunsAreTidy(site: Site, qs: seq<Request>, steps: seq<Step>, states: seq<Busy>)
    requires IsRun(site, steps, states) && InTurn(qs) <= steps && AllProper(qs)
    ensures Tidy(site, steps, states, |InTurn(qs)|) && Settled(states[|InTurn(qs)|], Run(site, qs))
  {
    var worlds := WorldsOf(site, qs);
    var lists := seq(|qs|, i requires 0 <= i < |qs| => StepsOf(qs[i]));
    var ends := EndsOf(lists, steps);
    PrefixIsTidy(site, qs, worlds, lists, ends, |qs|, steps, states);
  }

  // ---------- A run with a stale hit ----------

  function LateFill(u: Viewer, m: string, p: string): seq<Step> {
    [Begin(0, u, p), Read(0), Write(m), Invalidate(m, ""), Finish(0, 200, "json")]
  }

  lemma ReadBeforeWrite(site: Site, u: Viewer, m: string, p: string, states: seq<Busy>)
    requires '?' !in p && IsRun(site, LateFill(u, m, p), states)
    ensures var b := states[2];
      && b.now == 0 && b.versions == site.start && b.store == map[]
      && b.flights == map[0 := Flight(u, p, 0, Some(site.render(u, p, site.start(p))), 1)]
  {
    QueryCutAt(p, "");
    assert Moves(site, LateFill(u, m, p), states, 0) && Moves(site, LateFill(u, m, p), states, 1);
  }

  lemma WrittenMeanwhile(site: Site, u: Viewer, m: string, p: string, states: seq<Busy>)
    requires '?' !in p && IsRun(site, LateFill(u, m, p), states)
    ensures var b := states[4];
      && b.now == 0 && b.versions == Written(site, site.start, m) && b.store == map[]
      && b.flights == map[0 := Flight(u, p, 0, Some(site.render(u, p, site.start(p))), 1)]
  {
    ReadBeforeWrite(site, u, m, p, states);
    assert Moves(site, LateFill(u, m, p), states, 2) && Moves(site, LateFill(u, m, p), states, 3);
  }

  /**
   * Such a run: a GET that read before a write fills the cache after the write's
   * invalidation, and the old body is then served as a hit. This happens for every cacheable
   * list and every write that changes it, covered by the rules or not.
   */
  lemma OverlappingFillIsStale(site: Site, u: Viewer, m: string, p: string, states: seq<Busy>)
    requires '?' !in p && GetCatalogCacheTtl(site.rules, p).Some? && site.render(u, p, site.start(p)) != ""
    requires site.touches(m, p) && IsRun(site, LateFill(u, m, p), states)
    ensures var b := states[5];
      var hit := Hit(site.rules, b.store, p, b.now);
      hit.Some? && hit.value.body == site.render(u, p, site.start(p))
        && CurrentBody(site, b.versions, u, p) == site.render(u, p, site.start(p) + 1)
  {
    QueryCutAt(p, "");
    JsonIsIncluded();
    WrittenMeanwhile(site, u, m, p, states);
    assert Moves(site, LateFill(u, m, p), states, 4);
  }
}
