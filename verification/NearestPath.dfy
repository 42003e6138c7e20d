/**
 * Recovering a broken URL: the nearest live path a viewer may open. The ancestors are tried
 * first; then the candidate sharing the most segments, ranked by the edit distance of its
 * leaf; then the hub of the zone.
 */
module NearestPath {
  import opened Common
  import opened Paths
  import opened LivePaths
  import opened EditDistance

  // ---------- The hub of the zone ----------

  function ZoneFallback(p: string, viewer: Option<User>): string {
    var segs := PathSegments(p);
    var first := if segs == [] then "" else segs[0];
    if IsAuthPath(p) || Distance(first, "auth") <= 1 then LOGIN
    else if IsAppShellPath(p) || Distance(first, "karvita") <= 2 then GetPostLoginPath(viewer)
    else if IsMarketingCmsPath(p) || first == "p" || first == "login-select" || "/login-select/" <= p then
      (if first == "login-select" || "/login-select/" <= p then LOGIN_SELECT else HOME)
    else if viewer.Some? then GetPostLoginPath(viewer) else HOME
  }

  // ---------- Ancestors ----------

  /** `path` and the paths above it, up to but without the root. */
  function Upward(path: string): seq<string>
    decreases if path == "/" then 0 else |path|
  {
    if path == "/" || path == "" then [] else [path] + Upward(ParentPathname(path))
  }

  /** The proper ancestors below the root, nearest first. */
  function Ancestors(p: string): seq<string> {
    Upward(ParentPathname(p))
  }

  lemma UpwardStep(path: string)
    requires path != "/" && path != ""
    ensures Upward(path) == [path] + Upward(ParentPathname(path))
  {
  }

  /** Each path of `walk` is the parent of the one before it. */
  ghost predicate IsWalk(walk: seq<string>) {
    forall i :: 0 <= i < |walk| - 1 ==> StepsUp(walk, i)
  }

  ghost predicate StepsUp(walk: seq<string>, i: nat)
    requires i + 1 < |walk|
  {
    NormalizePathname(walk[i]) != "/" && walk[i + 1] == ParentPathname(walk[i])
  }

  ghost predicate DropsLast(segs: string -> seq<string>, walk: seq<string>, i: nat)
    requires i + 1 < |walk|
  {
    segs(walk[i]) != [] && segs(walk[i + 1]) == segs(walk[i])[..|segs(walk[i])| - 1]
  }

  lemma {:induction false} DroppedOneByOne(segs: string -> seq<string>, walk: seq<string>, k: nat)
    requires k < |walk| && forall i :: 0 <= i < |walk| - 1 ==> DropsLast(segs, walk, i)
    ensures segs(walk[k]) == segs(walk[0])[..Max(0, |segs(walk[0])| - k)]
  {
    var first := segs(walk[0]);
    if k > 0 {
      DroppedOneByOne(segs, walk, k - 1);
      assert DropsLast(segs, walk, k - 1);
      PrefixOfPrefix(first, Max(0, |first| - (k - 1)), Max(0, |first| - k));
    } else {
      assert first[..|first|] == first;
    }
  }

  lemma {:induction false} UpwardIsWalk(q: string)
    ensures IsWalk(Upward(q))
    ensures Upward(q) != [] ==> Upward(q)[0] == q && q != "/"
    decreases |Upward(q)|
  {
    if q != "/" && q != "" {
      UpwardStep(q);
      UpwardIsWalk(ParentPathname(q));
      WalkGrows(q, Upward(ParentPathname(q)));
    }
  }

  lemma WalkGrows(path: string, walk: seq<string>)
    requires IsWalk(walk) && (walk != [] ==> walk[0] == ParentPathname(path) != "/")
    ensures IsWalk([path] + walk)
  {
    var longer := [path] + walk;
    forall i | 0 <= i < |longer| - 1 ensures StepsUp(longer, i) {
      if i > 0 {
        assert StepsUp(walk, i - 1);
        assert longer[i] == walk[i - 1] && longer[i + 1] == walk[i];
      }
    }
  }

  lemma StepDropsLast(walk: seq<string>, i: nat)
    requires i + 1 < |walk| && StepsUp(walk, i)
    ensures DropsLast(PathSegments, walk, i)
  {
    ParentDropsLast(walk[i]);
  }

  lemma WalkSegments(walk: seq<string>, k: nat, start: string, path: string)
    requires IsWalk(walk) && k < |walk| && walk[0] == start && walk[k] == path
    ensures PathSegments(path) == PathSegments(start)[..Max(0, |PathSegments(start)| - k)]
  {
    forall i | 0 <= i < |walk| - 1 ensures DropsLast(PathSegments, walk, i) {
      StepDropsLast(walk, i);
    }
    DroppedOneByOne(PathSegments, walk, k);
  }

  /** The k-th ancestor has the segments of the path without its last k + 1. */
  lemma AncestorSegments(p: string, k: nat)
    requires k < |Ancestors(p)|
    ensures PathSegments(Ancestors(p)[k]) == PathSegments(p)[..Max(0, |PathSegments(p)| - (k + 1))]
  {
    AncestryIsWalk(p);
    WalkSegments([p] + Ancestors(p), k + 1, p, Ancestors(p)[k]);
  }

  lemma AncestryIsWalk(p: string)
    ensures IsWalk([p] + Ancestors(p))
  {
    UpwardIsWalk(ParentPathname(p));
    WalkGrows(p, Ancestors(p));
  }

  lemma {:induction false} UpwardIsLong(q: string)
    ensures |Upward(q)| >= |PathSegments(q)|
    decreases |Upward(q)|
  {
    if q == "/" || q == "" {
      RootHasNoSegments();
      NoSegmentsInNothing();
    } else if PathSegments(q) != [] {
      RootHasNoSegments();
      ParentDropsLast(q);
      UpwardStep(q);
      UpwardIsLong(ParentPathname(q));
    }
  }

  lemma NoSegmentsInNothing()
    ensures PathSegments("") == []
  {
  }

  /** The walk leaves out no ancestor: it has one at least for each segment but the last. */
  lemma AncestorsReachTop(p: string)
    ensures |Ancestors(p)| >= |PathSegments(p)| - 1
  {
    if NormalizePathname(p) != "/" {
      ParentDropsLast(p);
    }
    UpwardIsLong(ParentPathname(p));
  }

  /** `r` is allowed and nothing nearer in `up` is. */
  ghost predicate FirstIn(up: seq<string>, allowed: string -> bool, r: string) {
    exists k :: 0 <= k < |up| && up[k] == r && allowed(r) && forall j :: 0 <= j < k ==> !allowed(up[j])
  }

  lemma FoundFirst(tried: seq<string>, path: string, rest: seq<string>, allowed: string -> bool)
    requires allowed(path) && forall a :: a in tried ==> !allowed(a)
    ensures FirstIn(tried + ([path] + rest), allowed, path)
  {
    var up := tried + ([path] + rest);
    assert up[|tried|] == path && forall j :: 0 <= j < |tried| ==> up[j] == tried[j];
  }

  method FirstAllowedAncestor(current: string, allowed: string -> bool) returns (r: Option<string>)
    ensures r.None? <==> forall a :: a in Ancestors(current) ==> !allowed(a)
    ensures r.Some? ==> FirstIn(Ancestors(current), allowed, r.value)
  {
    ghost var tried: seq<string> := [];
    var path := ParentPathname(current);
    while path != "/" && path != ""
      invariant Ancestors(current) == tried + Upward(path)
      invariant forall a :: a in tried ==> !allowed(a)
      decreases if path == "/" then 0 else |path|
    {
      UpwardStep(path);
      if allowed(path) {
        FoundFirst(tried, path, Upward(ParentPathname(path)), allowed);
        return Some(path);
      }
      Associate(tried, [path], Upward(ParentPathname(path)));
      tried := tried + [path];
      path := ParentPathname(path);
    }
    return None;
  }

  // ---------- Candidates ----------

  /** A candidate with everything the search reads off it. */
  datatype Candidate = Candidate(
    path: string, fits: bool, score: nat, leafDistance: nat, depth: nat, isHub: bool, collation: int)

  function MinScore(current: string): nat {
    if IsAppShellPath(current) then 2 else 1
  }

  /** `collation` stands for the place of a path in the locale order. */
  function Describe(
      c: string, current: string, viewer: Option<User>, hub: string, collation: string -> int): Candidate {
    var score := SharedSegments(current, c);
    Candidate(c, c != current && IsPathAllowedForViewer(c, viewer) && score >= MinScore(current), score,
              Distance(LeafSegment(current), LeafSegment(c)), |PathSegments(c)|, c == hub, collation(c))
  }

  function DescribeAll(cs: seq<string>, describe: string -> Candidate): (r: seq<Candidate>)
    ensures |r| == |cs|
  {
    if cs == [] then [] else [describe(cs[0])] + DescribeAll(cs[1..], describe)
  }

  lemma {:induction false} DescribedAt(cs: seq<string>, describe: string -> Candidate, i: nat)
    requires i < |cs|
    ensures DescribeAll(cs, describe)[i] == describe(cs[i])
  {
    if i > 0 {
      DescribedAt(cs[1..], describe, i - 1);
    }
  }

  lemma DescribedFrom(cs: seq<string>, describe: string -> Candidate, d: Candidate)
    requires d in DescribeAll(cs, describe)
    ensures exists c :: c in cs && d == describe(c)
  {
    var i :| 0 <= i < |cs| && DescribeAll(cs, describe)[i] == d;
    DescribedAt(cs, describe, i);
  }

  /** The recovery paths of the catalogue, and the viewer's own profile. */
  function Candidates(live: seq<string>, viewer: Option<User>): seq<string> {
    if viewer.Some? && Profile(viewer.value.role) !in live then live + [Profile(viewer.value.role)] else live
  }

  /** `compare(a, b) < 0` in the final sort. */
  predicate Before(a: Candidate, b: Candidate) {
    if a.leafDistance != b.leafDistance then a.leafDistance < b.leafDistance
    else if a.depth != b.depth then a.depth < b.depth
    else if a.isHub then !b.isHub
    else if b.isHub then false
    else a.collation < b.collation
  }

  /** The order is a strict weak one, so "first" is well defined up to equal rank. */
  lemma BeforeIsStrictWeak(a: Candidate, b: Candidate, c: Candidate)
    ensures Before(a, b) ==> !Before(b, a)
    ensures !Before(b, a) && !Before(c, b) ==> !Before(c, a)
    ensures !Before(a, b) && !Before(b, a) ==> a.leafDistance == b.leafDistance
  {
  }

  /** The candidates that fit and have the best score, in catalogue order. */
  method BestScored(cs: seq<Candidate>) returns (best: seq<Candidate>, top: nat)
    requires forall c :: c in cs && c.fits ==> c.score >= 1
    ensures forall c :: c in best <==> c in cs && c.fits && c.score == top
    ensures forall c :: c in cs && c.fits ==> c.score <= top
    ensures best == [] <==> forall c :: c in cs ==> !c.fits
  {
    best, top := [], 0;
    for i := 0 to |cs|
      invariant top == 0 <==> best == []
      invariant forall c :: c in best <==> c in cs[..i] && c.fits && c.score == top
      invariant forall c :: c in cs[..i] && c.fits ==> c.score <= top
    {
      var c := cs[i];
      assert cs[..i + 1] == cs[..i] + [c];
      if c.fits {
        if c.score > top {
          best, top := [c], c.score;
        } else if c.score == top {
          best := best + [c];
        }
      }
    }
    assert cs[..|cs|] == cs;
    assert best != [] ==> best[0] in best;
  }

  /** The head of the sorted list: nothing in the list comes before it. */
  method Least(best: seq<Candidate>) returns (head: Candidate)
    requires best != []
    ensures head in best
    ensures forall c :: c in best ==> !Before(c, head)
  {
    head := best[0];
    for i := 1 to |best|
      invariant head in best
      invariant forall k :: 0 <= k < i ==> !Before(best[k], head)
    {
      if Before(best[i], head) {
        head := best[i];
      }
    }
  }

  // ---------- The search ----------

  /** `r` has the best score among the candidates that fit, and none of that score ranks before it. */
  ghost predicate BestOf(cs: seq<Candidate>, r: Candidate) {
    && r in cs && r.fits
    && forall c :: c in cs && c.fits ==> c.score <= r.score && (c.score == r.score ==> !Before(c, r))
  }

  ghost predicate TopScored(cs: seq<Candidate>, c: Candidate) {
    c in cs && c.fits && forall d :: d in cs && d.fits ==> d.score <= c.score
  }

  /** The candidate step: the best of the candidates if its leaf is close enough, else the hub. */
  ghost predicate Recovered(cs: seq<Candidate>, hub: string, r: string) {
    || (exists c :: BestOf(cs, c) && c.leafDistance <= 2 && r == c.path)
    || (r == hub && forall c :: TopScored(cs, c) ==> c.leafDistance > 2)
  }

  /** What the search promises: the nearest allowed ancestor if there is one, else the candidate step. */
  ghost predicate Nearest(up: seq<string>, allowed: string -> bool, cs: seq<Candidate>, hub: string, r: string) {
    if exists a :: a in up && allowed(a) then FirstIn(up, allowed, r) else Recovered(cs, hub, r)
  }

  method Recover(cs: seq<Candidate>, hub: string) returns (r: string)
    requires forall c :: c in cs && c.fits ==> c.score >= 1
    ensures Recovered(cs, hub, r)
  {
    var best, top := BestScored(cs);
    if best == [] {
      return hub;
    }
    var c := Least(best);
    assert BestOf(cs, c);
    if c.leafDistance > 2 {
      assert forall d :: TopScored(cs, d) ==> d in best && !Before(d, c);
      return hub;
    }
    return c.path;
  }

  function AllowedFor(viewer: Option<User>): string -> bool {
    p => IsPathAllowedForViewer(p, viewer)
  }

  function Describer(current: string, viewer: Option<User>, collation: string -> int): string -> Candidate {
    c => Describe(c, current, viewer, ZoneFallback(current, viewer), collation)
  }

  /** The candidates of a search, described for one path and viewer. */
  function Field(current: string, viewer: Option<User>, live: seq<string>, collation: string -> int): seq<Candidate> {
    DescribeAll(Candidates(live, viewer), Describer(current, viewer, collation))
  }

  lemma FittingScores(current: string, viewer: Option<User>, live: seq<string>, collation: string -> int)
    ensures forall d :: d in Field(current, viewer, live, collation) && d.fits ==> d.score >= 1
  {
    var describe := Describer(current, viewer, collation);
    forall d | d in Field(current, viewer, live, collation) && d.fits ensures d.score >= 1 {
      DescribedFrom(Candidates(live, viewer), describe, d);
    }
  }

  // ---------- What the search promises, read off the paths themselves ----------

  /** The page is one of the recovery paths or the viewer's own profile. */
  predicate Offered(live: seq<string>, viewer: Option<User>, p: string) {
    p in live || (viewer.Some? && p == Profile(viewer.value.role))
  }

  /** Another page that the viewer may open and that begins as the address does: in the shell by two segments. */
  predicate Eligible(current: string, viewer: Option<User>, live: seq<string>, p: string) {
    && Offered(live, viewer, p) && p != current && IsPathAllowedForViewer(p, viewer)
    && (if IsAppShellPath(current) then 2 else 1) <= SharedSegments(current, p)
  }

  function LeafGap(current: string, p: string): nat {
    Distance(LeafSegment(current), LeafSegment(p))
  }

  /** No eligible page begins as the address does for longer. */
  ghost predicate SharesMost(current: string, viewer: Option<User>, live: seq<string>, p: string) {
    && Eligible(current, viewer, live, p)
    && forall q :: Eligible(current, viewer, live, q) ==> SharedSegments(current, q) <= SharedSegments(current, p)
  }

  /** `p` is no worse than `q`: nearer in its last segment, else shorter, else the hub, else first in the locale. */
  predicate NoWorse(current: string, hub: string, collation: string -> int, p: string, q: string) {
    && LeafGap(current, p) <= LeafGap(current, q)
    && (LeafGap(current, p) == LeafGap(current, q) ==>
      && |PathSegments(p)| <= |PathSegments(q)|
      && (|PathSegments(p)| == |PathSegments(q)| ==>
            (if q == hub then p == hub else p == hub || collation(p) <= collation(q))))
  }

  /** The candidate step: the best of the pages that share most if its last segment is within 2, else the hub. */
  ghost predicate NearestPage(
      current: string, viewer: Option<User>, live: seq<string>, hub: string, collation: string -> int, r: string) {
    || (&& SharesMost(current, viewer, live, r) && LeafGap(current, r) <= 2
        && forall q :: SharesMost(current, viewer, live, q) ==> NoWorse(current, hub, collation, r, q))
    || (r == hub && forall q :: SharesMost(current, viewer, live, q) ==> LeafGap(current, q) > 2)
  }

  lemma DescribedIn(cs: seq<string>, describe: string -> Candidate, p: string)
    requires p in cs
    ensures describe(p) in DescribeAll(cs, describe)
  {
    var i :| 0 <= i < |cs| && cs[i] == p;
    DescribedAt(cs, describe, i);
  }

  lemma CandidateIsOffered(live: seq<string>, viewer: Option<User>, p: string)
    ensures p in Candidates(live, viewer) <==> Offered(live, viewer, p)
  {
  }

  /** What a description says of a page is what the page is. */
  lemma DescribedTruly(current: string, viewer: Option<User>, live: seq<string>, collation: string -> int, p: string)
    ensures var d := Describer(current, viewer, collation)(p);
      && d.path == p && d.score == SharedSegments(current, p) && d.leafDistance == LeafGap(current, p)
      && d.depth == |PathSegments(p)| && d.isHub == (p == ZoneFallback(current, viewer))
      && d.collation == collation(p)
      && (Offered(live, viewer, p) ==> (d.fits <==> Eligible(current, viewer, live, p)))
  {
  }

  /** The field holds the true description of each eligible page, and nothing else in it fits. */
  ghost predicate Depicts(cs: seq<Candidate>, current: string, viewer: Option<User>, live: seq<string>,
                          describe: string -> Candidate) {
    && (forall p :: Eligible(current, viewer, live, p) ==> describe(p) in cs && describe(p).fits)
    && (forall d :: d in cs && d.fits ==> Eligible(current, viewer, live, d.path) && d == describe(d.path))
  }

  lemma FieldDepicts(current: string, viewer: Option<User>, live: seq<string>, collation: string -> int)
    ensures Depicts(Field(current, viewer, live, collation), current, viewer, live,
                    Describer(current, viewer, collation))
  {
    var cs, describe := Candidates(live, viewer), Describer(current, viewer, collation);
    forall p | Eligible(current, viewer, live, p)
      ensures describe(p) in Field(current, viewer, live, collation) && describe(p).fits
    {
      CandidateIsOffered(live, viewer, p);
      DescribedIn(cs, describe, p);
      DescribedTruly(current, viewer, live, collation, p);
    }
    forall d | d in Field(current, viewer, live, collation) && d.fits
      ensures Eligible(current, viewer, live, d.path) && d == describe(d.path)
    {
      DescribedFrom(cs, describe, d);
      var p :| p in cs && d == describe(p);
      CandidateIsOffered(live, viewer, p);
      DescribedTruly(current, viewer, live, collation, p);
    }
  }

  /** Ranking the descriptions is ranking the pages. */
  lemma RanksAlike(current: string, viewer: Option<User>, live: seq<string>, collation: string -> int,
                   p: string, q: string)
    ensures var describe := Describer(current, viewer, collation);
      !Before(describe(q), describe(p)) <==> NoWorse(current, ZoneFallback(current, viewer), collation, p, q)
  {
    DescribedTruly(current, viewer, live, collation, p);
    DescribedTruly(current, viewer, live, collation, q);
  }

  lemma MostIsBestScored(current: string, viewer: Option<User>, live: seq<string>, collation: string -> int,
                         cs: seq<Candidate>, p: string)
    requires Depicts(cs, current, viewer, live, Describer(current, viewer, collation))
    ensures var describe := Describer(current, viewer, collation);
      SharesMost(current, viewer, live, p) <==>
        && describe(p) in cs && describe(p).fits && Eligible(current, viewer, live, p)
        && forall d :: d in cs && d.fits ==> d.score <= describe(p).score
  {
    var describe := Describer(current, viewer, collation);
    DescribedTruly(current, viewer, live, collation, p);
    if SharesMost(current, viewer, live, p) {
      forall d | d in cs && d.fits ensures d.score <= describe(p).score {
        DescribedTruly(current, viewer, live, collation, d.path);
      }
    }
    if Eligible(current, viewer, live, p) && forall d :: d in cs && d.fits ==> d.score <= describe(p).score {
      forall q | Eligible(current, viewer, live, q)
        ensures SharedSegments(current, q) <= SharedSegments(current, p)
      {
        DescribedTruly(current, viewer, live, collation, q);
      }
    }
  }

  /** The best of the candidates is the best of the pages. */
  lemma BestIsBestPage(current: string, viewer: Option<User>, live: seq<string>, collation: string -> int,
                       cs: seq<Candidate>, p: string)
    requires Depicts(cs, current, viewer, live, Describer(current, viewer, collation))
    ensures BestOf(cs, Describer(current, viewer, collation)(p)) && Eligible(current, viewer, live, p) <==>
      && SharesMost(current, viewer, live, p)
      && forall q :: SharesMost(current, viewer, live, q) ==>
           NoWorse(current, ZoneFallback(current, viewer), collation, p, q)
  {
    var describe := Describer(current, viewer, collation);
    MostIsBestScored(current, viewer, live, collation, cs, p);
    if BestOf(cs, describe(p)) && Eligible(current, viewer, live, p) {
      forall q | SharesMost(current, viewer, live, q)
        ensures NoWorse(current, ZoneFallback(current, viewer), collation, p, q)
      {
        MostIsBestScored(current, viewer, live, collation, cs, q);
        RanksAlike(current, viewer, live, collation, p, q);
      }
    } else if && SharesMost(current, viewer, live, p)
              && forall q :: SharesMost(current, viewer, live, q) ==>
                   NoWorse(current, ZoneFallback(current, viewer), collation, p, q) {
      forall d | d in cs && d.fits && d.score == describe(p).score ensures !Before(d, describe(p)) {
        MostIsBestScored(current, viewer, live, collation, cs, d.path);
        RanksAlike(current, viewer, live, collation, p, d.path);
      }
    }
  }

  lemma RecoveredIsNearest(
      current: string, viewer: Option<User>, live: seq<string>, collation: string -> int, r: string)
    requires Recovered(Field(current, viewer, live, collation), ZoneFallback(current, viewer), r)
    ensures NearestPage(current, viewer, live, ZoneFallback(current, viewer), collation, r)
  {
    var cs, describe := Field(current, viewer, live, collation), Describer(current, viewer, collation);
    FieldDepicts(current, viewer, live, collation);
    if c :| BestOf(cs, c) && c.leafDistance <= 2 && r == c.path {
      BestIsBestPage(current, viewer, live, collation, cs, r);
      DescribedTruly(current, viewer, live, collation, r);
    } else {
      forall q | SharesMost(current, viewer, live, q) ensures LeafGap(current, q) > 2 {
        MostIsBestScored(current, viewer, live, collation, cs, q);
        DescribedTruly(current, viewer, live, collation, q);
        assert TopScored(cs, describe(q));
      }
    }
  }

  /** The nearest ancestor that the viewer may open if there is one, else the candidate step. */
  ghost predicate NearestLive(
      current: string, viewer: Option<User>, live: seq<string>, hub: string, collation: string -> int, r: string) {
    if exists a :: a in Ancestors(current) && IsPathAllowedForViewer(a, viewer)
    then FirstIn(Ancestors(current), AllowedFor(viewer), r)
    else NearestPage(current, viewer, live, hub, collation, r)
  }

  /** `live` is the list of recovery paths, `ListNavigableRecoveryPaths()` in the application. */
  method ResolveNearestLivePath(
      pathname: string, viewer: Option<User>, live: seq<string>, collation: string -> int)
    returns (r: string)
    ensures
      var current := NormalizePathname(pathname);
      Nearest(Ancestors(current), AllowedFor(viewer), Field(current, viewer, live, collation),
              ZoneFallback(current, viewer), r)
    ensures
      var current := NormalizePathname(pathname);
      NearestLive(current, viewer, live, ZoneFallback(current, viewer), collation, r)
  {
    var current := NormalizePathname(pathname);
    var hub := ZoneFallback(current, viewer);
    var above := FirstAllowedAncestor(current, AllowedFor(viewer));
    if above.Some? {
      return above.value;
    }
    FittingScores(current, viewer, live, collation);
    r := Recover(Field(current, viewer, live, collation), hub);
    RecoveredIsNearest(current, viewer, live, collation, r);
  }

  // ---------- Where the search can send a viewer ----------

  predicate IsPublicHub(n: string) {
    n == HOME || n == LOGIN || n == LOGIN_SELECT
  }

  lemma HubsAreLive()
    ensures forall n :: IsPublicHub(n) ==>
      && IsNormal(n) && (n == HOME || n in LIVE_BELOW_HOME)
      && !("/karvita" <= n)
  {
    assert LIVE_BELOW_HOME[0] == LOGIN_SELECT && LIVE_BELOW_HOME[1] == LOGIN;
    assert LOGIN_SELECT[1] == 'l' && LOGIN[1] == 'a' && "/karvita"[1] == 'k' && |HOME| == 1;
  }

  lemma HubIsAllowed(n: string, viewer: Option<User>)
    requires IsPublicHub(n)
    requires viewer.Some? ==> AreModulesUnlocked(viewer.value)
    ensures IsPathAllowedForViewer(n, viewer)
  {
    HubsAreLive();
    LiveIsNavigable(n);
    if viewer.Some? {
      assert "/karvita" <= "/karvita/admin/" && "/karvita" <= DASHBOARD && "/karvita" <= ADMIN_DASHBOARD;
      UnlockedMayOpen(viewer.value, n);
    } else {
      NormalIsFixed(n);
      assert "/karvita" + "/" <= n ==> "/karvita" <= n;
    }
  }

  /** Every candidate that fits is one the viewer may open. */
  lemma FittingIsAllowed(
      current: string, viewer: Option<User>, live: seq<string>, collation: string -> int, c: Candidate)
    requires c in Field(current, viewer, live, collation) && c.fits
    ensures IsPathAllowedForViewer(c.path, viewer) && c.path in Candidates(live, viewer)
  {
    DescribedFrom(Candidates(live, viewer), Describer(current, viewer, collation), c);
  }

  lemma ZoneFallbackIsKnown(p: string, viewer: Option<User>)
    ensures var hub := ZoneFallback(p, viewer);
      IsPublicHub(hub) || (viewer.Some? && hub == GetPostLoginPath(viewer))
  {
  }

  lemma AccessIsNavigable(u: User, p: string)
    requires CanAccessReturnPath(u, p)
    ensures IsPathAllowedForViewer(p, Some(u))
  {
    NormalizedIsNormal(p);
    NormalIsFixed(NormalizePathname(p));
  }

  lemma HomeIsAllowed(u: User)
    requires PlainRole(u.role)
    ensures IsPathAllowedForViewer(GetPostLoginPath(Some(u)), Some(u))
  {
    HomeIsAccessible(u);
    AccessIsNavigable(u, GetPostLoginPath(Some(u)));
  }

  /** The hub admits every viewer but a user awaiting approval. */
  lemma ZoneFallbackIsAllowed(p: string, viewer: Option<User>)
    requires viewer.Some? ==> PlainRole(viewer.value.role)
    ensures var hub := ZoneFallback(p, viewer);
      IsPathAllowedForViewer(hub, viewer) || (viewer.Some? && !AreModulesUnlocked(viewer.value) && IsPublicHub(hub))
  {
    var hub := ZoneFallback(p, viewer);
    ZoneFallbackIsKnown(p, viewer);
    if !IsPublicHub(hub) {
      HomeIsAllowed(viewer.value);
    } else if viewer.Some? ==> AreModulesUnlocked(viewer.value) {
      HubIsAllowed(hub, viewer);
    }
  }

  lemma NearestIsAllowedOrHub(up: seq<string>, allowed: string -> bool, cs: seq<Candidate>, hub: string, r: string)
    requires Nearest(up, allowed, cs, hub, r)
    ensures allowed(r) || r == hub || exists c :: c in cs && c.fits && c.path == r
  {
  }

  // ---------- Exactly when the page may be opened ----------

  lemma SegmentsBelow(name: string, rest: string)
    requires name != "" && '/' !in name
    ensures SplitSegments("/" + name + "/" + rest) == [name] + SplitSegments(rest)
    ensures SplitSegments("/" + name) == [name]
  {
    assert "/" + name + "/" + rest == "" + "/" + (name + "/" + rest) && "/" + name == "" + "/" + name;
    SplitAtFirstSlash("", name + "/" + rest);
    SplitAtFirstSlash(name, rest);
    SplitAtFirstSlash("", name);
    SplitWithoutSlash(name);
  }

  ghost predicate StartsWith(p: string, name: string) {
    PathSegments(p) != [] && PathSegments(p)[0] == name
  }

  lemma StartsBelow(p: string, name: string)
    requires name != "" && '/' !in name
    requires NormalizePathname(p) == "/" + name || "/" + name + "/" <= NormalizePathname(p)
    ensures StartsWith(p, name)
  {
    var n := NormalizePathname(p);
    if n == "/" + name {
      SegmentsBelow(name, "");
    } else {
      SegmentsBelow(name, n[|name| + 2..]);
      assert n == "/" + name + "/" + n[|name| + 2..];
    }
  }

  lemma ShellPrefix()
    ensures "/" + "karvita" + "/" == "/karvita/" && '/' !in "karvita"
  {
  }

  lemma AuthPrefixes()
    ensures "/" + "auth" == "/auth" && "/" + "auth" + "/" == "/auth" + "/" && '/' !in "auth"
    ensures "/" + "admin" == "/admin" && '/' !in "admin"
  {
  }

  lemma ProfileStartsInShell(p: string, role: string)
    requires NormalizePathname(p) == Profile(role)
    ensures StartsWith(p, "karvita")
  {
    ShellPrefix();
    StartsBelow(p, "karvita");
  }

  lemma AuthStartsInAuth(p: string)
    requires IsAuthPath(p)
    ensures StartsWith(p, "auth") || StartsWith(p, "admin")
  {
    AuthPrefixes();
    if NormalizePathname(p) == "/admin" {
      StartsBelow(p, "admin");
    } else {
      StartsBelow(p, "auth");
    }
  }

  /** Below the shell the fallback is the viewer's own landing page. */
  lemma ShellFallback(p: string, u: User)
    requires StartsWith(p, "karvita")
    ensures ZoneFallback(p, Some(u)) == GetPostLoginPath(Some(u))
  {
    if IsAuthPath(p) {
      AuthStartsInAuth(p);
    }
    LengthGap("karvita", "auth");
    SelfDistance("karvita");
  }

  function FirstSegment(p: string): string {
    if PathSegments(p) == [] then "" else PathSegments(p)[0]
  }

  lemma ShellStarts(p: string)
    requires IsAppShellPath(p)
    ensures FirstSegment(p) == "karvita"
  {
    ShellPrefix();
    StartsBelow(p, "karvita");
  }

  lemma SitePrefixes()
    ensures "/" + "p" == "/p" && "/" + "p" + "/" == "/p" + "/" && '/' !in "p"
  {
  }

  lemma SelectPrefix()
    ensures "/" + "login-select" + "/" == "/login-select/" && '/' !in "login-select"
  {
  }

  lemma MarketingStarts(p: string)
    requires IsMarketingCmsPath(p)
    ensures FirstSegment(p) == "p"
  {
    SitePrefixes();
    StartsBelow(p, "p");
  }

  lemma SelectStarts(p: string)
    requires NormalizePathname(p) == p && "/login-select/" <= p
    ensures FirstSegment(p) == "login-select"
  {
    SelectPrefix();
    StartsBelow(p, "login-select");
  }

  /** The pages behind the zones. */
  datatype Zone = SignIn | Shell | Select | Site | Elsewhere

  /** The zone is read off the first segment of the address, typing errors included. */
  function ZoneOf(p: string): Zone {
    var first := FirstSegment(p);
    if Distance(first, "auth") <= 1 || p == "/admin" then SignIn
    else if Distance(first, "karvita") <= 2 then Shell
    else if first == "login-select" then Select
    else if first == "p" then Site
    else Elsewhere
  }

  lemma AuthIsSignIn(p: string)
    requires NormalizePathname(p) == p && IsAuthPath(p)
    ensures ZoneOf(p) == SignIn
  {
    if p != "/admin" {
      AuthPrefixes();
      StartsBelow(p, "auth");
      SelfDistance("auth");
    }
  }

  lemma SignInHub(p: string, viewer: Option<User>)
    requires ZoneOf(p) == SignIn
    ensures ZoneFallback(p, viewer) == LOGIN
  {
    if p == "/admin" {
      NormalIsFixed(p);
    }
  }

  lemma ShellHub(p: string, viewer: Option<User>)
    requires ZoneOf(p) == Shell && !IsAuthPath(p)
    ensures ZoneFallback(p, viewer) == GetPostLoginPath(viewer)
  {
  }

  lemma ShellIsShell(p: string)
    requires IsAppShellPath(p)
    ensures ZoneOf(p) in {SignIn, Shell}
  {
    ShellStarts(p);
    SelfDistance("karvita");
  }

  lemma PublicHub(p: string, viewer: Option<User>)
    requires ZoneOf(p) in {Select, Site, Elsewhere} && !IsAuthPath(p) && !IsAppShellPath(p)
    requires IsMarketingCmsPath(p) ==> ZoneOf(p) == Site
    requires "/login-select/" <= p ==> ZoneOf(p) == Select
    ensures ZoneFallback(p, viewer) ==
      match ZoneOf(p)
      case Select => LOGIN_SELECT
      case Site => HOME
      case _ => if viewer.Some? then GetPostLoginPath(viewer) else HOME
  {
  }

  /** The hub of a zone: sign-in, the viewer's landing page, the choice of sign-in, or the public landing page. */
  lemma HubOfZone(p: string, viewer: Option<User>)
    requires NormalizePathname(p) == p
    ensures ZoneFallback(p, viewer) ==
      match ZoneOf(p)
      case SignIn => "/auth/login"
      case Shell => GetPostLoginPath(viewer)
      case Select => "/login-select"
      case Site => "/"
      case Elsewhere => if viewer.Some? then GetPostLoginPath(viewer) else "/"
  {
    if IsAuthPath(p) {
      AuthIsSignIn(p);
    }
    if ZoneOf(p) == SignIn {
      SignInHub(p, viewer);
    } else if ZoneOf(p) == Shell {
      ShellHub(p, viewer);
    } else {
      PublicZones(p);
      PublicHub(p, viewer);
    }
  }

  lemma PublicZones(p: string)
    requires NormalizePathname(p) == p && ZoneOf(p) !in {SignIn, Shell}
    ensures !IsAppShellPath(p)
    ensures IsMarketingCmsPath(p) ==> ZoneOf(p) == Site
    ensures "/login-select/" <= p ==> ZoneOf(p) == Select
  {
    if IsAppShellPath(p) {
      ShellIsShell(p);
    }
    if IsMarketingCmsPath(p) {
      MarketingStarts(p);
    }
    if "/login-select/" <= p {
      SelectStarts(p);
    }
  }

  /** A user awaiting approval may open nothing but the own profile. */
  lemma LockedOpensProfileOnly(p: string, u: User)
    requires !AreModulesUnlocked(u) && IsPathAllowedForViewer(p, Some(u))
    ensures NormalizePathname(p) == Profile(u.role) && StartsWith(p, "karvita")
  {
    ProfileStartsInShell(p, u.role);
  }

  lemma AncestorStartsAlike(current: string, a: string, name: string)
    requires a in Ancestors(current) && StartsWith(a, name)
    ensures StartsWith(current, name)
  {
    var k :| 0 <= k < |Ancestors(current)| && Ancestors(current)[k] == a;
    AncestorSegments(current, k);
  }

  lemma SharedStartAlike(current: string, c: string, name: string)
    requires SharedSegments(current, c) >= 1 && StartsWith(c, name)
    ensures StartsWith(current, name)
  {
  }

  lemma CandidateStartsAlike(
    current: string, viewer: Option<User>, live: seq<string>, collation: string -> int, c: Candidate, name: string)
    requires c in Field(current, viewer, live, collation) && c.fits && StartsWith(c.path, name)
    ensures StartsWith(current, name)
  {
    DescribedFrom(Candidates(live, viewer), Describer(current, viewer, collation), c);
    SharedStartAlike(current, c.path, name);
  }

  lemma PublicHubIsClosedToLocked(hub: string, u: User)
    requires IsPublicHub(hub) && !AreModulesUnlocked(u)
    ensures !IsPathAllowedForViewer(hub, Some(u))
  {
    HubsAreLive();
    NormalIsFixed(hub);
    assert "/karvita" <= Profile(u.role);
  }

  /** If what the search found for a locked user may be opened, the fallback was not a public page. */
  lemma AllowedMeansOwnHub(current: string, u: User, live: seq<string>, collation: string -> int, r: string)
    requires !AreModulesUnlocked(u) && IsPathAllowedForViewer(r, Some(u))
    requires Nearest(Ancestors(current), AllowedFor(Some(u)), Field(current, Some(u), live, collation),
                     ZoneFallback(current, Some(u)), r)
    ensures !IsPublicHub(ZoneFallback(current, Some(u)))
  {
    var hub := ZoneFallback(current, Some(u));
    if r != hub {
      AllowedIsBelowShell(current, u, live, collation, r);
      ShellFallback(current, u);
      HubsAreLive();
      assert "/karvita" <= Profile(u.role);
    } else if IsPublicHub(hub) {
      PublicHubIsClosedToLocked(hub, u);
    }
  }

  lemma AllowedIsBelowShell(current: string, u: User, live: seq<string>, collation: string -> int, r: string)
    requires !AreModulesUnlocked(u) && IsPathAllowedForViewer(r, Some(u)) && r != ZoneFallback(current, Some(u))
    requires Nearest(Ancestors(current), AllowedFor(Some(u)), Field(current, Some(u), live, collation),
                     ZoneFallback(current, Some(u)), r)
    ensures StartsWith(current, "karvita")
  {
    var cs := Field(current, Some(u), live, collation);
    LockedOpensProfileOnly(r, u);
    NearestComesFrom(Ancestors(current), AllowedFor(Some(u)), cs, ZoneFallback(current, Some(u)), r);
    if r in Ancestors(current) {
      AncestorStartsAlike(current, r, "karvita");
    } else {
      var c :| c in cs && c.fits && c.path == r;
      CandidateStartsAlike(current, Some(u), live, collation, c, "karvita");
    }
  }

  lemma NearestComesFrom(up: seq<string>, allowed: string -> bool, cs: seq<Candidate>, hub: string, r: string)
    requires Nearest(up, allowed, cs, hub, r)
    ensures r in up || r == hub || exists c :: c in cs && c.fits && c.path == r
  {
  }

  /** Every result but the public page for a locked user is one the viewer may open. */
  lemma OtherwiseAllowed(current: string, viewer: Option<User>, live: seq<string>, collation: string -> int, r: string)
    requires Nearest(Ancestors(current), AllowedFor(viewer), Field(current, viewer, live, collation),
                     ZoneFallback(current, viewer), r)
    requires viewer.Some? ==> PlainRole(viewer.value.role)
    requires !(viewer.Some? && !AreModulesUnlocked(viewer.value) && IsPublicHub(ZoneFallback(current, viewer)))
    ensures IsPathAllowedForViewer(r, viewer)
  {
    var cs, hub := Field(current, viewer, live, collation), ZoneFallback(current, viewer);
    NearestIsAllowedOrHub(Ancestors(current), AllowedFor(viewer), cs, hub, r);
    if r == hub {
      ZoneFallbackIsAllowed(current, viewer);
    } else if c :| c in cs && c.fits && c.path == r {
      FittingIsAllowed(current, viewer, live, collation, c);
    }
  }

  /**
   * The search leads to a page the viewer may open exactly when it is not for a user awaiting
   * approval whose zone falls back to a public page, both of which are known before it starts.
   */
  lemma NearestIsAllowed(current: string, viewer: Option<User>, live: seq<string>, collation: string -> int, r: string)
    requires Nearest(Ancestors(current), AllowedFor(viewer), Field(current, viewer, live, collation),
                     ZoneFallback(current, viewer), r)
    requires viewer.Some? ==> PlainRole(viewer.value.role)
    ensures IsPathAllowedForViewer(r, viewer) <==>
      !(viewer.Some? && !AreModulesUnlocked(viewer.value) && IsPublicHub(ZoneFallback(current, viewer)))
  {
    if viewer.Some? && !AreModulesUnlocked(viewer.value) && IsPublicHub(ZoneFallback(current, viewer)) {
      if IsPathAllowedForViewer(r, viewer) {
        AllowedMeansOwnHub(current, viewer.value, live, collation, r);
      }
    } else {
      OtherwiseAllowed(current, viewer, live, collation, r);
    }
  }

  /** A user awaiting approval is sent from any address of the sign-in zone to the login page, which refuses them. */
  lemma LockedUnderAuth(p: string, u: User, live: seq<string>, collation: string -> int, r: string)
    requires PlainRole(u.role) && !AreModulesUnlocked(u) && IsAuthPath(p)
    requires Nearest(Ancestors(p), AllowedFor(Some(u)), Field(p, Some(u), live, collation), ZoneFallback(p, Some(u)), r)
    ensures r == LOGIN && !IsPathAllowedForViewer(r, Some(u))
  {
    NearestIsAllowed(p, Some(u), live, collation, r);
    NearestIsAllowedOrHub(Ancestors(p), AllowedFor(Some(u)), Field(p, Some(u), live, collation), LOGIN, r);
    if r != LOGIN {
      var c :| c in Field(p, Some(u), live, collation) && c.fits && c.path == r;
      FittingIsAllowed(p, Some(u), live, collation, c);
    }
  }

  lemma BrokenAuthPath()
    ensures IsAuthPath("/auth/xyz")
  {
    NormalIsFixed("/auth/xyz");
  }

  /** One such address. */
  lemma LockedAtBrokenAuthPath(u: User, live: seq<string>, collation: string -> int, r: string)
    requires PlainRole(u.role) && !AreModulesUnlocked(u)
    requires var p := "/auth/xyz";
      Nearest(Ancestors(p), AllowedFor(Some(u)), Field(p, Some(u), live, collation), ZoneFallback(p, Some(u)), r)
    ensures r == LOGIN && !IsPathAllowedForViewer(r, Some(u))
  {
    BrokenAuthPath();
    LockedUnderAuth("/auth/xyz", u, live, collation, r);
  }
}
