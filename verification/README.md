# A verified model of the Karvita front end's stateful cores

The application is a Next.js front end for managing student internships. Most of it is pages and
calls to a remote service, but it also holds protocols, caches and small algorithms of its own, and a
fake backend that stands in for the service. This project models those parts in Dafny and proves what
they promise, for every input, every run and every interleaving.

| part | modules |
|---|---|
| the undoable write: optimistic change, commit, undo, reverse | `UndoableMutation` |
| edit distance, path helpers and the nearest-live-path search | `EditDistance`, `Paths`, `LivePaths`, `NearestPath` |
| the proxy's shared catalogue cache, against a versioned upstream | `CatalogCache`, `CatalogTables`, `ProxyRuns`, `CatalogCoverage`, `OverlappingRuns` |
| the fake backend's response validator and router | `SchemaValidator`, `SchemaFaults`, `SchemaCycles`, `SchemaReading`, `Templates`, `PercentEncoding`, `Router` |
| the course catalogue and its enrolment-level counter | `CourseCatalog`, `CourseEdits`, `CourseEditor`, `KeptLevels` |
| enrolments, student weeks and conversations of the fake backend | `EnrollmentMachine`, `EnrollmentStore`, `MessagePages` |
| token refresh, resend and session restore | `TokenRefresh`, `SessionBoot` |
| paged lists and bulk collection | `OffsetPaging`, `BulkFetch` |
| notifications, module cache, grading, delete rules, error texts | `Notifications`, `NotificationLists`, `ModuleCache`, `Grading`, `OrgDelete`, `ApiError`, `PayloadStrings` |

`dafny verify dfyconfig.toml` checks everything.

## How the parts are modelled

Code that changes things step by step is a class whose methods are proved to take the state to the
next state of a specification function; the theorems are then about runs of that function. An
asynchronous call is an event that settles with a chosen result, so a run is any interleaving the
event loop could produce. Loops of the source are loops here, proved against recursive or declarative
specifications.

Where the code falls short of what one would expect of it, the model keeps the code, and the project
proves for all inputs or runs when the expectation holds, beside the inputs or runs on which it fails:

- An immediate write is not reversed by undo when its commit returned nothing, although `reverse` was
  supplied (`UndoableMutation.AgreementWhenQuiet`, `VoidCommitLosesUndo`);
  `src/features/karvita/daily-approvals/hooks/useDailyApprovalsActions.ts:224-239` is such a caller. A
  `reverse` that rejects after its write also leaves UI and server apart.
- The proxy's cascade table names no list of course selection, so enrolling and cancelling leave the
  professors' remaining places and the lessons a student may select as they were cached
  (`CatalogCoverage.EnrollingLeavesTheList`). These two are the only lists of the fake backend the
  table does not cover (`AllButSelectionAreCovered`), and a hit is current in every run exactly for the
  lists it covers (`ProxyRuns.CurrentIffCovered`).
- The open course selection is cached under one key although it depends on who asks: a trainee can be
  served a student's term (`CatalogCoverage.TraineeGetsStudentsTerm`). A hit is right for whoever asks
  exactly when moreover all are sent the same (`ProxyRuns.RightIffCoveredAndShared`).
- A GET that overlaps a write can refill the cache with the old body after the invalidation
  (`OverlappingRuns.OverlappingFillIsStale`). A hit is current exactly when no write changed its list
  since the read that fetched it (`HitIsCurrentExactlyWhen`), which holds for covered lists in every run
  that keeps writes out of the fetches they touch (`TidyHitsAreCurrent`); in any case staleness is
  bounded by the TTL and the fetch's latency.
- The nearest-path search sends a user awaiting approval to a public page that `canAccessReturnPath`
  refuses exactly when the fallback of the zone is such a page (`NearestPath.NearestIsAllowed`), as it
  is everywhere under `/auth` (`LockedUnderAuth`).
- Asking for the messages after number 0 is taken as asking for the last page, so a reader who starts
  there misses the beginning of a conversation longer than a page
  (`MessagePages.NewerPageContinues`, `ZeroGetsTheLastPage`); and the client's loop over pages, which
  starts with no number at all, ends with the last 50 messages, not with all of them
  (`MessagePages.WalkCollectsTheLastPage`).
- A 401 after a resend that ky made by itself is reported as missing permission and no refresh is tried
  (`TokenRefresh.OwnRetrySpendsTheResend`).
- A local edit made before the first page is loaded claims that nothing more is coming
  (`OffsetPaging.PatchBeforeLoad`).
- Collecting a catalogue silently stops after fifty pages of whatever size the server applies
  (`BulkFetch.CollectsWholeListIffItFits`).
- A mark-as-read that fails puts back the list from before it, and with it loses whatever came on
  screen since (`Notifications.LateRollbackDropsRefresh`); `NotificationLists.FailedMarkUndoesItself`
  says after exactly which events the marked list is still there and only the mark is undone.
- A further page that arrives after a refresh puts the list from before the refresh back
  (`NotificationLists.LatePageDropsRefresh`).
- A mark made while a further page loads is gone from the screen when the page arrives
  (`Notifications.LoadMoreForgetsMarks`).
- A reset of the session while a restore is waiting, and no other, lets a second one run beside it
  (`SessionBoot.ResetAllowsTwo`, `CalmRunsWaitForOne`).
- A path template with two placeholders in a segment can match in two ways (`Templates.UniqueIffSpaced`).
- A course form that names one sub-module twice gives both copies its level
  (`CourseCatalog.BuiltApartIffUnrepeated`).
- A city can be deleted under a faculty that names it (`OrgDelete.CityDeleteMayOrphanFaculties`).
- The two routes to a final grade disagree in a band of half a hundredth below the threshold
  (`Grading.RoutesDifferExactlyWhen`).

Assumptions shared by several parts: freshly generated ids are new, the clock does not go back, a
plainly rejected write did not happen, `Intl` collation is some assignment of ranks, and numbers are
exact. The undo button of a deferred write is dead once its toast has closed
(`UndoableMutation.LateUndoDiverges` shows what else would happen). Which writes change which list and
what each viewer is sent are arbitrary, except that in the runs of the proxy only a POST, PUT, PATCH or
DELETE answered with 200 to 299 changes anything (`ProxyRuns.FailedWriteGoesStale` shows a run where
another reply comes back); the table of the fake backend's writes in `CatalogCoverage` says
what rows a write may change and a list is made from. The validator's `$ref` links that consume no value are
acyclic, which `Ranked` states by giving each schema a rank (`SchemaCycles.RankingExistsIff`);
`Validate` takes the ranks as a ghost argument. Each read of the upstream by the proxy happens at one
moment between a fetch's start and its finish.

## Model

| member | source | states |
|---|---|---|
| UndoableMutation.Mutation.RunCommit | src/lib/undoable-mutation.ts:137-161 | the commit is sent only if undo has not been pressed and none was sent before; the whole new state follows the protocol step |
| UndoableMutation.Mutation.Revert | src/lib/undoable-mutation.ts:150-151 | the UI drops the change and the revert is counted |
| UndoableMutation.Mutation.OnClose | src/lib/undoable-mutation.ts:171-173 | a toast close, automatic or by hand, releases a deferred commit and does nothing else |
| UndoableMutation.Mutation.OnUndoClick | src/lib/undoable-mutation.ts:176-199 | pressing undo reverts at once when deferred and otherwise waits for the commit; a second press, or one after a failed commit, changes nothing |
| UndoableMutation.Mutation.OnCommitResolved | src/lib/undoable-mutation.ts:141-143 | a resolved commit means the server holds the change and its result is kept |
| UndoableMutation.Mutation.OnCommitRejected | src/lib/undoable-mutation.ts:145-160 | a plain rejection reverts the UI; a post-commit refresh error leaves the change shown and held |
| UndoableMutation.Mutation.ResumeUndo | src/lib/undoable-mutation.ts:182-189 | after the commit, undo calls reverse with the commit's own result when there is one, else only reverts |
| UndoableMutation.Mutation.OnReverseResolved | src/lib/undoable-mutation.ts:186-189 | a resolved reverse takes the change from the server and then from the UI |
| UndoableMutation.Mutation.OnReverseRejected | src/lib/undoable-mutation.ts:190-194 | a rejected reverse leaves the UI as it is |
| UndoableMutation.RunKeepsInv | src/lib/undoable-mutation.ts:115-204 | one invariant ties flags, UI and server in every reachable state of both modes |
| UndoableMutation.AtMostOnce | src/lib/undoable-mutation.ts:121-125 | over every interleaving: at most one commit, at most one revert, at most one reverse, and it gets the commit's result |
| UndoableMutation.DeferredTrace | src/lib/undoable-mutation.ts:138-139 | a deferred commit is sent exactly when some toast close precedes every press of undo |
| UndoableMutation.ImmediateOutcome | src/lib/undoable-mutation.ts:137-199 | over the events of a quiet immediate run: the change is shown if and only if undo was not pressed and the commit not rejected, or the reverse call failed; the server holds it unless the commit was rejected or a reverse call took effect; reverse was called, once and with what the commit returned, if and only if there is one, undo was pressed and the commit returned something |
| UndoableMutation.DeferredOutcome | src/lib/undoable-mutation.ts:137-199 | over the events of a deferred run: the change is shown until undo is pressed or the commit rejected, the server holds it once the commit has gone through, the commit is sent if and only if a close came before every press of undo, and nothing is reversed |
| UndoableMutation.UndoIsOffered | src/lib/undoable-mutation.ts:171-178 | an immediate write can be undone at any time, a deferred one until its toast has closed |
| UndoableMutation.CommitCanReply | src/lib/undoable-mutation.ts:137-161 | a commit that was sent can come back in any way, once |
| UndoableMutation.AgreementWhenQuiet | src/lib/undoable-mutation.ts:185-189 | once nothing is in flight UI and server agree if and only if reverse was not skipped and did not reject after its write |
| UndoableMutation.DeferredAlwaysAgrees | src/lib/undoable-mutation.ts:195-199 | a quiet deferred write is shown and held or neither |
| UndoableMutation.UnpressedAgrees | src/lib/undoable-mutation.ts:249-275 | a write whose undo is never pressed, like an optimistic write without undo, ends shown and held unless its commit failed |
| UndoableMutation.VoidCommitLosesUndo | src/lib/undoable-mutation.ts:185-188 | a concrete run: commit returns nothing, reverse is skipped, the UI drops what the server keeps |
| UndoableMutation.LateUndoDiverges | src/lib/undoable-mutation.ts:195-198 | if the button outlived a deferred toast, a press after the close would part UI and server |
| UndoableMutation.EveryRunCanSettle | src/lib/undoable-mutation.ts:115-204 | from every reachable state some continuation reaches quiet: no interleaving is stuck |
| EditDistance.FillRow | src/services/path-utils.ts:49-57 | one pass of the inner loop produces the next row of the recursive distance; the fallbacks for missing cells are never taken |
| EditDistance.Levenshtein | src/services/path-utils.ts:40-64 | for all strings the two-row loop returns the recursive edit distance |
| EditDistance.ScriptsCostAtLeast | src/services/path-utils.ts:40-64 | no insert, delete and replace script from a to b costs less than the distance |
| EditDistance.ScriptOfLeastCost | src/services/path-utils.ts:40-64 | some script costs exactly the distance |
| EditDistance.ZeroOnlyOnEqual | src/services/path-utils.ts:41 | distance zero means equal strings |
| EditDistance.SelfDistance | src/services/path-utils.ts:41 | a string is at distance zero from itself |
| EditDistance.Symmetric | src/services/path-utils.ts:40-64 | the distance is symmetric |
| EditDistance.Triangle | src/services/path-utils.ts:40-64 | the triangle inequality |
| EditDistance.LengthGap | src/services/path-utils.ts:42-43 | the distance is at least the difference in length |
| EditDistance.AtMostLonger | src/services/path-utils.ts:40-64 | the distance is at most the longer length |
| Paths.NormalizedIsNormal | src/services/path-utils.ts:6-10 | a normalised path has no query and no trailing slash, or is the root |
| Paths.NormalIsFixed | src/services/path-utils.ts:6-10 | normalising is idempotent |
| Paths.SplitAtSlash | src/services/path-utils.ts:19-21 | the segments of two paths joined by a slash are the segments of each, in order |
| Paths.ParentDropsLast | src/services/path-utils.ts:12-17 | the parent of every path but the root has its segments without the last; the leaf is that last segment |
| Paths.CommonPrefixIs | src/services/path-utils.ts:29-37 | the count n is the one for which the first n segments agree and the next do not |
| Paths.CommonPrefixSegmentCount | src/services/path-utils.ts:29-37 | the loop returns that count for any two paths |
| LivePaths.HomeIsAccessible | src/services/post-login-path.ts:127-141 | the page a user lands on after login is one canAccessReturnPath admits |
| LivePaths.PostAuthPathIsAccessible | src/services/post-login-path.ts:182-193 | whatever the return address, the page after authentication is one the user may open |
| LivePaths.AccessByRole | src/services/post-login-path.ts:143-175 | a user may open a live page if and only if: a super admin, it is not the dashboard; an assistant, nor one of three admin pages; awaiting approval, it is their own profile; else, it is a profile or lies outside the admin pages |
| LivePaths.LandingByRole | src/services/post-login-path.ts:79-141 | where login leads by role and approval; and an anonymous viewer may open exactly the live pages outside the application |
| LivePaths.NavigablePages | src/lib/live-nav-paths.ts:82-117 | the live pages are the landing page, the listed targets for a broken address, the profile of any role and the page of any internship level |
| NearestPath.AncestorSegments | src/services/post-login-path.ts:206-210 | the k-th path the walk visits has the segments of the start without the last k + 1 |
| NearestPath.FirstAllowedAncestor | src/services/post-login-path.ts:206-210 | the walk ends and finds the nearest allowed proper ancestor if and only if there is one |
| NearestPath.AncestorsReachTop | src/services/post-login-path.ts:206-210 | the walk leaves out no ancestor: it has one at least for each segment but the last |
| NearestPath.BeforeIsStrictWeak | src/services/post-login-path.ts:242-255 | the comparator of the sort is a strict weak order on the candidates |
| NearestPath.BestScored | src/services/post-login-path.ts:217-235 | the loop keeps exactly the fitting candidates of the greatest shared prefix |
| NearestPath.Least | src/services/post-login-path.ts:242-257 | the chosen candidate has none before it |
| NearestPath.Recover | src/services/post-login-path.ts:217-264 | a candidate of greatest prefix and least leaf distance, at most 2, or the zone fallback |
| NearestPath.ResolveNearestLivePath | src/services/post-login-path.ts:199-265 | for every path and viewer: the nearest allowed ancestor if one exists; else, of the listed pages and the viewer's profile that differ from the path, are allowed and share the minimum of segments, one that shares the most and whose last segment is nearest by edit distance, at most 2, ties going to the page of fewer segments and then to the hub; else the hub |
| NearestPath.ZoneFallbackIsAllowed | src/services/post-login-path.ts:92-119 | the fallback admits every viewer except a user awaiting approval sent to a public hub |
| NearestPath.HubOfZone | src/services/post-login-path.ts:92-119 | the fallback by the first segment alone: sign-in for what is within one edit of it, the viewer's landing page for what is within two of the application, the choice of sign-in, the public landing page for marketing addresses, and otherwise the landing page of a user or the public one |
| NearestPath.NearestIsAllowed | src/services/post-login-path.ts:199-265 | the result is a page the viewer may open if and only if the viewer is not a user awaiting approval whose zone falls back to a public page |
| NearestPath.LockedUnderAuth | src/services/post-login-path.ts:92-119 | from any address of the sign-in zone such a user is sent to the login page, which does not admit them |
| NearestPath.LockedAtBrokenAuthPath | src/services/post-login-path.ts:92-119 | one such address, `/auth/xyz` |
| CatalogCache.Cache.Get | src/lib/nest-catalog-cache.ts:58-69 | a lookup returns the stored entry exactly while it is fresh, and drops it once stale |
| CatalogCache.ListPatternMatches | src/lib/nest-catalog-cache.ts:25-46 | the list patterns match exactly the path, or the path with any query |
| CatalogCache.MutationPatternMatches | src/lib/nest-catalog-cache.ts:78-155 | the mutation patterns match exactly the path, what is below it, that or nothing, or a segment it begins |
| CatalogCache.Cache.Set | src/lib/nest-catalog-cache.ts:71-76 | a write stores the entry under its key with the present time and leaves the other keys |
| CatalogCache.Cache.InvalidateByPath | src/lib/nest-catalog-cache.ts:173-188 | the sweeps remove exactly the keys whose path the mutation affects, directly or by a cascade rule |
| CatalogCache.KeyPathIsCacheable | src/lib/nest-catalog-cache.ts:51-56 | the path of a cacheable key is itself cacheable |
| CatalogCache.UnrelatedRemovesNothing | src/lib/nest-catalog-cache.ts:194-197 | when the guard calls a mutation unrelated, invalidating would remove nothing from any store the proxy fills |
| CatalogTables.TablesArePlain | src/lib/nest-catalog-cache.ts:25-46 | the proxy's own table meets the one assumption of the freshness theorems |
| CatalogTables.ItemWriteRefreshesList | src/lib/nest-catalog-cache.ts:78-155 | a write to any item of the semester, province, city, district, school or campus list drops the cached list |
| ProxyRuns.BeforeUpstream | src/lib/nest-proxy-forward.ts:86-102 | a hit if and only if the request is a GET for a cacheable key stored no longer ago than its TTL; it is the stored entry, and no other key is touched |
| ProxyRuns.AfterUpstream | src/lib/nest-proxy-forward.ts:154-179 | after a POST, PUT, PATCH or DELETE answered with 200 to 299 no key is left whose list the rules reach, and every other key stays; a JSON GET answered with 200 stores exactly its entry; nothing else changes the store |
| ProxyRuns.RunIsCoherent | src/lib/nest-proxy-forward.ts:86-179 | while the rules drop a key's list after every write that changes it, in every run of atomic requests what is stored under the key is what the upstream holds now for the viewer who filled it |
| ProxyRuns.HitsAreCurrent | src/lib/nest-proxy-forward.ts:86-102 | hence a hit is within its TTL and what the upstream would send now to that viewer, and right for the viewer who asks if and only if the upstream sends both the same |
| ProxyRuns.UncoveredGoesStale | src/lib/nest-proxy-forward.ts:154-179 | for any write that changes a list no rule drops after it, fetching and then writing leaves the old body to be served as a hit |
| ProxyRuns.FailedWriteGoesStale | src/lib/nest-proxy-forward.ts:154-166 | and so does a write that took effect although its reply says it failed, for every list it changes, dropped by the rules or not |
| ProxyRuns.ServedUntilItExpires | src/lib/nest-proxy-forward.ts:86-102 | until the TTL is over whoever asks is served what the first viewer was sent |
| ProxyRuns.OthersBodyIsServed | src/lib/nest-proxy-forward.ts:86-102 | wherever two viewers are sent different bodies at a version the list can reach, some run serves one the other's |
| ProxyRuns.CurrentIffCovered | src/lib/nest-proxy-forward.ts:86-179 | where bodies tell versions apart, the hits under a key are current in every run if and only if the rules drop its list after every write that changes it |
| ProxyRuns.RightIffCoveredAndShared | src/lib/nest-proxy-forward.ts:86-179 | and right for whoever asks in every run if and only if moreover all viewers are sent the same at every version the list can reach |
| ProxyRuns.AllCurrentIffCovers | src/lib/nest-catalog-cache.ts:78-188 | every hit of every run is current if and only if the cascade rules cover, for each list that can be cached, every write that changes it |
| CatalogCoverage.AllButSelectionAreCovered | src/lib/nest-catalog-cache.ts:87-167 | the proxy's own table covers what the fake backend's writes change in a list if and only if it is neither the professors nor the open course selection |
| CatalogCoverage.FakeHitsAreCurrentIff | src/lib/nest-catalog-cache.ts:26-188 | so before the fake backend the hits under a key are current in every run if and only if its list is neither of these |
| CatalogCoverage.FakeHitsAreRightIff | src/lib/nest-catalog-cache.ts:10-14 | and right for whoever asks under the same condition, if no other list's body depends on who asks |
| CatalogCoverage.EnrollingChangesBothLists | tools/fake-nest/handlers/enrollments.ts:151-216 | every successful enrolment changes the places shown of its professor and what its student may select |
| CatalogCoverage.EnrollingLeavesTheList | tools/fake-nest/handlers/enrollments.ts:63-109 | yet after it both cached lists are served from before |
| CatalogCoverage.TraineeGetsStudentsTerm | tools/fake-nest/handlers/enrollments.ts:151-178 | for a minute after a student asked for the open selection a trainee is served the student's term, which is not open for the trainee |
| OverlappingRuns.StalenessIsBounded | src/lib/nest-proxy-forward.ts:86-179 | with GETs and mutations overlapping in any way, a served body was current for the viewer who filled it at some moment no earlier than now minus TTL minus the latency of its fetch |
| OverlappingRuns.VersionsCountWrites | src/lib/nest-proxy-forward.ts:154-166 | over any stretch of any run a list moves on by one version for each write that changes it |
| OverlappingRuns.StoredLagsByItsWrites | src/lib/nest-proxy-forward.ts:86-179 | in every run a stored body is behind by exactly the writes to its list since the read that fetched it |
| OverlappingRuns.HitIsCurrentExactlyWhen | src/lib/nest-proxy-forward.ts:86-179 | a hit is current for the viewer who filled it if no write changed its list after the read that fetched it, and only then where the body tells versions apart; it is then right for another viewer if and only if both are sent the same |
| OverlappingRuns.RunStands | src/lib/nest-proxy-forward.ts:154-179 | a key in the store was put there by the finish of its flight, and no invalidation since has reached it |
| OverlappingRuns.TidyHitsAreCurrent | src/lib/nest-proxy-forward.ts:86-179 | if no write falls between a flight's read and finish and every write is followed by its invalidation, the hits under the keys of every covered list are current |
| OverlappingRuns.AtomicRunsAreTidy | src/lib/nest-proxy-forward.ts:86-179 | runs of atomic requests are such runs, with the same clock, lists and cache filled for the same viewers |
| OverlappingRuns.OverlappingFillIsStale | src/lib/nest-proxy-forward.ts:154-179 | for every cacheable list and every write that changes it, covered or not, some overlap with a GET leaves the old body to be served as a hit |
| SchemaValidator.Validate | tools/fake-nest/openapi.ts:137-225 | the recursive checker with its pushes and early exit returns the specified errors and terminates by value, then schema rank, then schema |
| SchemaValidator.FlatMapParts | tools/fake-nest/openapi.ts:151-155 | allOf concatenates the errors of its parts in order |
| SchemaValidator.TryAlternatives | tools/fake-nest/openapi.ts:156-164 | oneOf or anyOf succeeds if some part has no error; every part is run |
| SchemaValidator.PushItems | tools/fake-nest/openapi.ts:194-199 | the errors of the items, in order, each under its index |
| SchemaValidator.PushMissing | tools/fake-nest/openapi.ts:206-210 | one error for each required key that is absent and not a known gap of the owning schema |
| SchemaValidator.PushFields | tools/fake-nest/openapi.ts:211-221 | the errors of the present properties except the tolerated ones |
| SchemaValidator.FaultlessIffConforms | tools/fake-nest/openapi.ts:137-225 | no errors if and only if the value conforms to the declarative relation over references, nullability, composition, enum, type, required fields and known gaps |
| SchemaValidator.SameForAnyRanking | tools/fake-nest/openapi.ts:137-225 | the ranking of the schemas only shows that the checker ends: any two give the same result |
| SchemaValidator.ClosedNeverThrows | tools/fake-nest/openapi.ts:123-128 | over a document whose references all resolve no value makes the checker throw |
| SchemaValidator.FaultsAreLocated | tools/fake-nest/openapi.ts:137-225 | every error names a place under the given location that is in the value, or the field the value lacks |
| SchemaValidator.ContractIsAccepted | tools/fake-nest/openapi.ts:67-86 | a value that meets the contract to the letter passes with the known gaps tolerated |
| SchemaValidator.WiderGapsAcceptMore | tools/fake-nest/openapi.ts:67-86 | tolerating more fields never rejects a value accepted before |
| SchemaValidator.BranchesDecide | tools/fake-nest/openapi.ts:150-164 | allOf, all of whose parts must be met, decides before oneOf and oneOf before anyOf, of which some part must be; only without any of them do the schema's own keywords |
| SchemaFaults.FaultsAreExactly | tools/fake-nest/openapi.ts:137-225 | a check that ends normally reports a fault at a place if and only if the contract is broken there in that way: every error and no other, each of its own kind |
| SchemaFaults.FieldContributes | tools/fake-nest/openapi.ts:211-221 | a field that is there adds nothing under its name if it is null and a known empty gap, or not null and a known type gap, of the owning schema; in every other case all errors of its own check are reported |
| SchemaFaults.UndeletedUserIsAccepted | tools/fake-nest/openapi.ts:67-73 | a user whose deletion date and photo are null passes if every other field meets the contract to the letter |
| SchemaFaults.NumberedDeletionIsReported | tools/fake-nest/openapi.ts:211-221 | a number as deletion date is reported where the contract asks for text |
| SchemaCycles.RankingExistsIff | tools/fake-nest/openapi.ts:137-165 | the ranking the checker's end rests on exists if and only if no chain of links that consume no value returns to a schema |
| SchemaReading.ValidIsAccepted | tools/fake-nest/openapi.ts:137-225 | whatever free of null is valid by section 4.7.24 of OpenAPI 3.0.3 is accepted |
| SchemaReading.ReadingsAgree | tools/fake-nest/openapi.ts:137-225 | and nothing else is, over schemas with no keyword beside branches or of another type, no choice of exactly one and no whole numbers |
| SchemaReading.AcceptedBeyondIff | tools/fake-nest/openapi.ts:150-225 | beyond it a value is accepted if and only if it breaks a keyword beside branches, meets two branches of oneOf, is a fraction for an integer, or breaks a keyword for arrays or objects where no type is given |
| SchemaReading.TwoMatchesAreAccepted | tools/fake-nest/openapi.ts:156-164 | a value that a branch accepts is accepted when oneOf lists that branch twice, where none is valid |
| Templates.ExecIsSound | tools/fake-nest/openapi.ts:106-116 | a reported match is a match: the groups are non-empty, have no slash, and fill the template to the whole path |
| Templates.ExecIsComplete | tools/fake-nest/openapi.ts:106-116 | whenever some assignment matches, the greedy pattern with backtracking reports a match |
| Templates.CapturesAreUnique | tools/fake-nest/openapi.ts:106-116 | with at most one placeholder a segment, no two assignments give the same path |
| Templates.ExecInvertsFill | tools/fake-nest/openapi.ts:106-121 | matching a filled template returns exactly the values it was filled with |
| Templates.UniqueIffSpaced | tools/fake-nest/openapi.ts:106-116 | a template's captures are determined by the path if and only if no segment holds two placeholders |
| PercentEncoding.DecodeEncode | tools/fake-nest/router.ts:53-55 | decoding a percent-encoded value gives the value back |
| PercentEncoding.EncodedIsOneSegment | tools/fake-nest/router.ts:53-55 | an encoded value has no slash and is empty only for the empty value |
| Router.Table.Register | tools/fake-nest/router.ts:24-37 | an operation the contract lists is appended; any other is refused and changes nothing |
| Router.Table.Match | tools/fake-nest/router.ts:44-59 | the loop answers as the first route with the verb whose pattern accepts the path, or with none |
| Router.Table.FillParams | tools/fake-nest/router.ts:53-56 | names are bound in order, a repeated name keeping its last value; a malformed escape is an error |
| Router.Table.PathExists | tools/fake-nest/router.ts:62-64 | true if and only if some assignment of some registered route matches the path |
| Router.FirstAcceptingDecides | tools/fake-nest/router.ts:44-59 | the first accepting route decides, whatever follows it |
| Router.BoundCarriesIffAgree | tools/fake-nest/router.ts:53-56 | the handler gets back every value that was encoded if and only if equal names were given equal values |
| Router.RequestReachesItsRoute | tools/fake-nest/router.ts:44-59 | a path built from a route's template and encoded non-empty values reaches that route unless an earlier one accepts it, with exactly those values |
| CourseCatalog.AssignSubsNumbers | src/services/syllabus-config/course-catalog.ts:252-271 | every leaf without a level gets its own, above the counter before and at most the counter after; the others keep theirs |
| CourseCatalog.BuiltApartIffUnrepeated | src/services/syllabus-config/course-catalog.ts:148-167 | the built sub-modules have levels of their own if and only if the form repeats none that has one |
| CourseCatalog.RebuildIsSound | src/services/syllabus-config/course-catalog.ts:143-169 | building from the form and numbering leaves every leaf settled and stores no level the course did not hold or that was ever handed out |
| CourseCatalog.HolderIsUnique | src/services/syllabus-config/course-catalog.ts:172-176 | a stored level has one holder in the whole catalogue |
| CourseCatalog.LoadingSettles | src/services/syllabus-config/course-catalog.ts:252-271 | numbering the courses of a loaded snapshot settles every leaf and moves no stored level |
| CourseCatalog.KeptIdKeepsLevel | src/services/syllabus-config/course-catalog.ts:148-167 | a sub-module that keeps its id keeps its level through an update |
| CourseCatalog.LookupReturnsTheHolder | src/services/syllabus-config/course-catalog.ts:224-235 | in every reachable catalogue, looking up a dynamic level of an active leaf of the audience returns that leaf |
| CourseCatalog.IdForLevelIsTheHolders | src/services/syllabus-config/course-catalog.ts:238-249 | the catalogue id for a level of a course kind is that of the leaf holding the level |
| CourseCatalog.LookupNeverInvents | src/services/syllabus-config/course-catalog.ts:224-249 | a leaf found for a dynamic level holds that level now |
| CourseCatalog.FlattenedIds | src/services/syllabus-config/course-catalog.ts:79-102 | the flat list names exactly the leaves of the audience's active courses |
| CourseCatalog.DefaultsAreSound | src/services/syllabus-config/course-catalog.ts:44-59 | the seed catalogue satisfies the invariants the runs start from |
| CourseCatalog.CreateKeepsInv | src/services/syllabus-config/service/course-catalog-mutations.ts:88-101 | creating a course keeps levels distinct, above 100, at most the counter |
| CourseCatalog.UpdateKeepsInv | src/services/syllabus-config/service/course-catalog-mutations.ts:103-129 | so does updating one |
| CourseCatalog.DeleteKeepsInv | src/services/syllabus-config/service/course-catalog-mutations.ts:137-146 | so does deleting one, without lowering the counter |
| CourseCatalog.StepKeepsInv | src/services/syllabus-config/service/course-catalog-mutations.ts:88-146 | every edit keeps the invariant and stores no level that is neither held before by the same id nor above the old counter |
| CourseCatalog.RunKeepsInv | src/services/syllabus-config/service/course-catalog-mutations.ts:88-146 | hence every run of edits does |
| CourseCatalog.LevelBelongsToOneId | src/services/syllabus-config/service/course-catalog-mutations.ts:88-146 | over a whole run a level belongs to one id: whoever holds it later held it before |
| CourseCatalog.GoneIsGone | src/services/syllabus-config/service/course-catalog-mutations.ts:88-146 | a level that was handed out and has disappeared is never handed out again |
| CourseCatalog.StepKeepsIds | src/services/syllabus-config/service/course-catalog-mutations.ts:88-146 | course ids stay distinct |
| CourseCatalog.StepKeepsTitles | src/services/syllabus-config/service/course-catalog-mutations.ts:94-95 | no edit gives two courses of one audience the same trimmed title |
| CourseCatalog.OfferedLeafStays | src/services/syllabus-config/service/course-catalog-mutations.ts:45-75 | no edit that succeeds removes an offered leaf from the list it is offered from |
| KeptLevels.UpdateKeepsStored | src/services/syllabus-config/service/course-catalog-mutations.ts:103-128 | an update changes the level of no course, with sub-modules or without, and of no sub-module that the course still lists |
| KeptLevels.ListedKeepsLevel | src/services/syllabus-config/service/course-catalog-mutations.ts:88-146 | over any run a course or sub-module that stays in the list keeps the level it has |
| CourseEditor.Draft.AssignEnrollmentLevels | src/services/syllabus-config/course-catalog.ts:252-271 | the loop with its counter leaves the draft and the course as specified |
| CourseEditor.Draft.NextLevel | src/services/syllabus-config/course-catalog.ts:256-263 | each call returns one more than the greater of the counter and 100 and stores it |
| CourseEditor.FindLeafByEnrollmentLevel | src/services/syllabus-config/course-catalog.ts:224-235 | the scan returns the first active leaf of the audience with the level |
| CourseEditor.FlattenCourseCatalog | src/services/syllabus-config/course-catalog.ts:79-102 | the loop returns the flat list of leaves |
| CourseEditor.Store.CreateCourse | src/services/syllabus-config/service/course-catalog-mutations.ts:88-101 | accepted if and only if the trimmed titles are not blank and distinct and no course of the audience has the title; then the course with the form's trimmed titles, audience and state comes last, its leaves numbered from the counter on, and everything else stays; else nothing changes |
| CourseEditor.Store.UpdateCourse | src/services/syllabus-config/service/course-catalog-mutations.ts:103-129 | accepted if and only if the course is there, the form is such apart from that course, and no offered leaf of it is dropped or hidden; then that course alone is replaced by what the form says, sub-modules it names keeping their ids; else nothing changes, not even the counter |
| CourseEditor.Store.DeleteCourse | src/services/syllabus-config/service/course-catalog-mutations.ts:137-146 | accepted if and only if the course is there and no offering, past or present, names a leaf of it; then no course has the id, every other stays unchanged and in order, and so do counter and offerings; else nothing changes |
| EnrollmentMachine.SortIsIdentity | tools/fake-nest/domain.ts:349-353 | in every reachable state a conversation's messages are numbered 1 to n in order, so the sort changes nothing |
| EnrollmentMachine.AppendKeepsInv | tools/fake-nest/domain.ts:318-347 | appending a message keeps the numbering, the read marks within n, and one row per enrolment and week |
| EnrollmentMachine.CreateKeepsInv | tools/fake-nest/domain.ts:206-256 | so does creating an enrolment |
| EnrollmentMachine.RunKeepsInv | tools/fake-nest/domain.ts:206-353 | so does every run of requests |
| EnrollmentMachine.MessageTouchesOneWeek | tools/fake-nest/domain.ts:297-347 | a message changes at most one student week, that of its own conversation, never a graded one, as its sender's role does, and never moves its start |
| EnrollmentMachine.CreationEquips | tools/fake-nest/domain.ts:206-256 | an enrolment gets one student week and one conversation per lesson week existing then, plus one general conversation |
| EnrollmentMachine.EnrolmentStaysEquipped | tools/fake-nest/domain.ts:206-256 | and keeps exactly those however the run goes on, even when the lesson's weeks change |
| EnrollmentMachine.MessageMovesItsWeek | tools/fake-nest/domain.ts:297-347 | by role: a student's message hands the conversation's own week in and clears the mentor's answer, a mentor's sends it back, a teacher's or school admin's ticks only their own box; a graded week and every other week stay |
| EnrollmentMachine.CreationStartsBlank | tools/fake-nest/domain.ts:206-256 | an enrolment comes last with what was chosen, its weeks untouched and its conversations unread, and no older row changes |
| EnrollmentMachine.PlacesAddUp | tools/fake-nest/domain.ts:258-271 | a row of places counts for its own professor, term and lesson, and for nothing else |
| EnrollmentMachine.NeverOverbooked | tools/fake-nest/domain.ts:258-281 | at no moment of a run are fewer than no places left if and only if no change of the offer goes below the places then in use |
| EnrollmentMachine.EnrolmentTakesOnePlace | tools/fake-nest/handlers/enrollments.ts:76-86 | a successful enrolment takes exactly one place, of one professor, term and lesson, and only where one was left |
| EnrollmentMachine.OneLiveInEveryRun | tools/fake-nest/handlers/enrollments.ts:63-109 | no student ever has two uncancelled enrolments in one lesson |
| EnrollmentMachine.MarkReadKeepsInv | tools/fake-nest/handlers/conversations.ts:172-181 | marking as read keeps every read mark within the number of messages |
| EnrollmentMachine.MarkReadClears | tools/fake-nest/handlers/conversations.ts:172-181 | after marking, the reader has nothing unread in that conversation and the other marks stand |
| EnrollmentMachine.AppendGoesLast | tools/fake-nest/domain.ts:318-347 | a message goes last in its conversation under the next number, the other conversations keep theirs, and its sender has nothing unread |
| EnrollmentMachine.OneMoreUnread | tools/fake-nest/handlers/conversations.ts:40-56 | for everyone but its sender a message is one more unread in its conversation |
| EnrollmentMachine.ReadingIsOnesOwn | tools/fake-nest/handlers/conversations.ts:172-181 | reading leaves what others have unread, and what the reader has elsewhere |
| MessagePages.NewerPageContinues | tools/fake-nest/handlers/conversations.ts:118-136 | asking for what follows message n misses none, repeats none and says truly whether more follow, if and only if n is not 0 or the conversation fits in one page |
| MessagePages.ZeroGetsTheLastPage | tools/fake-nest/handlers/conversations.ts:119-136 | asking for what follows message 0 of a longer conversation gets the last page, as if nothing had been asked |
| MessagePages.OlderPageContinues | tools/fake-nest/handlers/conversations.ts:130-136 | asking for what precedes message n misses none, repeats none and says truly whether more precede |
| MessagePages.ListMessages | src/services/conversations/real/conversations.api.ts:42-57 | the client's loop over pages collects what the recursive walk does, for any server |
| MessagePages.WalkCollectsTheLastPage | src/services/conversations/real/conversations.api.ts:42-57 | against this handler that walk collects the last 50 messages: the whole conversation if and only if it has at most 50 |
| EnrollmentStore.Store.CreateEnrollmentRecords | tools/fake-nest/domain.ts:206-256 | the loops over the lesson's weeks leave the tables as specified |
| EnrollmentStore.Store.AppendMessage | tools/fake-nest/domain.ts:318-347 | the message, the sender's read mark and the student week are updated together as specified |
| EnrollmentStore.Store.CheckChoice | tools/fake-nest/handlers/enrollments.ts:63-109 | the guards in their order; 204 if and only if every condition of enrolment holds |
| EnrollmentStore.Store.Enrol | tools/fake-nest/handlers/enrollments.ts:63-109 | an enrolment is made if and only if those conditions hold; then one free place is taken, and no student gains a second live enrolment in a lesson |
| EnrollmentStore.Store.Cancel | tools/fake-nest/handlers/enrollments.ts:316-327 | cancels if and only if the student or the professor asks and it was not cancelled; frees the place of an active enrolment, and cannot be done twice |
| EnrollmentStore.Store.CheckMessage | tools/fake-nest/handlers/conversations.ts:139-170 | the guards of posting in their order; 201 if and only if the message may be posted |
| EnrollmentStore.Store.Post | tools/fake-nest/handlers/conversations.ts:139-170 | a message is added if and only if it may be posted: last in its conversation under the next number, read by its sender; otherwise nothing changes |
| EnrollmentStore.Store.Read | tools/fake-nest/handlers/conversations.ts:172-181 | a participant, and nobody else, ends with nothing unread; messages and weeks stay |
| EnrollmentStore.Store.Score | tools/fake-nest/handlers/student-weeks.ts:47-69 | a grade is given if and only if the live enrolment's own professor gives one from 0 to 100; exactly that week changes, and is completed |
| TokenRefresh.Tab.RotateRealAccessToken | src/services/api-token.ts:25-36 | a caller joins the refresh in flight, or starts the only one |
| TokenRefresh.Tab.OnRefreshSettled | src/services/api-token.ts:31-33 | the variable is cleared and the result fixed before any waiter runs |
| TokenRefresh.Tab.Send | src/services/api-token.ts:51-67 | a request sent during a refresh waits for it, but never starts one |
| TokenRefresh.Tab.HandleUnauthorized | src/services/api-token.ts:72-95 | one logout runs at a time; on an auth page none does |
| TokenRefresh.OneRefreshAtATime | src/services/api-token.ts:10-36 | in every run, with any number of requests, at most one refresh is in flight |
| TokenRefresh.JoinersShareTheResult | src/services/api-token.ts:31-36 | all requests that joined one refresh share its fate: all are resent or none is |
| TokenRefresh.BurstStartsAtMostOne | src/services/api-token.ts:25-36 | any number of 401s before a refresh settles start at most one |
| TokenRefresh.BootstrapNeverRefreshes | src/services/api-token.ts:97-103 | a request to a sign-in or sign-out address never joins or starts a refresh |
| TokenRefresh.NoRequestIsStuck | src/services/api-token.ts:51-67 | what a request waits for has settled or is the refresh still in flight |
| TokenRefresh.NewRequestBears | src/services/api-token.ts:51-67 | in every run a new request bears the token it was given, else the last one any refresh gave, unless one is in flight, for which it waits |
| TokenRefresh.WaiterBears | src/services/api-token.ts:51-67 | one that waited bears what the refresh it waited for gave, or the last token given if that gave none |
| TokenRefresh.SkipsExactly | src/services/api-token.ts:97-103 | the addresses that never refresh are those that contain a listed path followed by a slash, a query or nothing |
| TokenRefresh.OneLogoutAtATime | src/services/api-token.ts:69-95 | no run has two logouts in progress |
| TokenRefresh.Tab.OnResponse | src/services/api-client.ts:54-74 | the hook ends, logs out or refreshes as decided, and touches no other request |
| TokenRefresh.Tab.OnRefreshed | src/services/api-client.ts:74-84 | no token means logging out; a token means one resend with that token |
| TokenRefresh.ResponseDecides | src/services/api-client.ts:54-74 | every response: another status is the answer; a 401 logs out at a sign-in address, is reported as forbidden after a resend, and else waits for a refresh |
| TokenRefresh.NoTokenLogsOut | src/services/api-client.ts:74-84 | a refresh without a token ends in a logout unless one is running or the page is one of signing in |
| TokenRefresh.RunKeepsInv | src/services/api-client.ts:52-84 | one invariant over requests, resends, joined refreshes and the promise variable holds in every run |
| TokenRefresh.ResentOnceWithJoinedToken | src/services/api-client.ts:78-84 | the hook resends a request at most once, and with the token of the refresh its 401 joined |
| TokenRefresh.RefreshedExactlyWhen | src/services/api-client-config.ts:19-29 | a 401 leads to a refresh if and only if the address allows it and the request was sent once |
| TokenRefresh.OwnRetrySpendsTheResend | src/services/api-client-config.ts:6-29 | a 401 after a resend by ky itself is reported as forbidden with no refresh tried |
| SessionBoot.Module.EnsureAuthRestore | src/store/sessionBoot.ts:25-42 | the flag if it is set, else the one promise, started only if there is none |
| SessionBoot.Module.OnRestored | src/store/sessionBoot.ts:31-35 | a flag set meanwhile is what the promise gives; otherwise the restore's answer becomes the flag |
| SessionBoot.Module.OnRestoreFailed | src/store/sessionBoot.ts:36-39 | a failed restore clears the promise, so the next call starts afresh |
| SessionBoot.OneRestoreAtATime | src/store/sessionBoot.ts:28-41 | without a reset, a restore is only called after every one before it was rejected |
| SessionBoot.FlagEndsRestoring | src/store/sessionBoot.ts:28-30 | once the flag is set it stays set and no further restore is called |
| SessionBoot.FlagSetMeanwhileWins | src/store/sessionBoot.ts:31-34 | a restore that settles after the flag was set gives the flag, not what it found |
| SessionBoot.ResetAllowsTwo | src/store/sessionBoot.ts:20-23 | after a reset the next call starts a second restore beside the first if and only if one is still waiting |
| SessionBoot.CalmRunsWaitForOne | src/store/sessionBoot.ts:20-41 | in every run whose resets come while no restore is waiting, two restores never run together |
| OffsetPaging.SliceContinues | src/utils/offset-limit-page.ts:10-21 | a page continues the rows before its offset, and says truly whether more follow |
| OffsetPaging.EstimatesAddUp | src/utils/offset-limit-page.ts:27-34 | over a walk with estimated totals the reported total is the rows loaded, plus one while more are promised |
| OffsetPaging.InfiniteList.FetchNextPage | src/hooks/useOffsetLimitInfiniteList.ts:77-85 | fetches at the number of rows loaded, or not at all when nothing more is promised |
| OffsetPaging.InfiniteList.PatchItems | src/hooks/useOffsetLimitInfiniteList.ts:121-139 | the loaded rows become the edited rows as one page, the promise of more unchanged |
| OffsetPaging.FetchKeepsConsistent | src/hooks/useOffsetLimitInfiniteList.ts:77-85 | a fetch keeps the loaded rows a prefix of the server's and grows it by a page or to the end |
| OffsetPaging.PatchKeepsConsistent | src/hooks/useOffsetLimitInfiniteList.ts:121-139 | so does an edit of loaded rows applied on both sides |
| OffsetPaging.RunIsConsistent | src/hooks/useOffsetLimitInfiniteList.ts:77-139 | in any mix of fetches and edits no row is lost, repeated or out of order |
| OffsetPaging.WalkLoadsEverything | src/hooks/useOffsetLimitInfiniteList.ts:81-84 | following the page parameter loads the whole list, each row once, and then stops |
| OffsetPaging.PatchBeforeLoad | src/hooks/offsetLimitInfiniteList.helpers.ts:51-61 | an edit before any page is loaded leaves the list right if and only if the server's is empty |
| BulkFetch.FetchAllNestPagedCatalog | src/services/admin-catalog/bulk-fetch.ts:25-44 | the loop ends and returns the pages in order, at most fifty |
| BulkFetch.CollectsWholeListIffItFits | src/services/admin-catalog/bulk-fetch.ts:21-44 | against any source of pages the result is the first fifty pages' worth, and the whole list exactly when that holds it |
| BulkFetch.FakeBackendGivesFiveThousand | tools/fake-nest/store.ts:351-362 | asking for 200 a page gets 100: the loop returns the first 5000 rows, all of them exactly when there are no more |
| BulkFetch.PaginateServes | tools/fake-nest/store.ts:351-362 | page and limit read as the first and ten unless given, a hundred rows at most, and truly whether more follow |
| BulkFetch.BareArrayGivesTenThousand | src/types/nest-admin.ts:444-459 | a bare array cut up on the client yields the first 10000 rows, all of them exactly when there are no more |
| BulkFetch.ReadsAnswer | src/types/nest-admin.ts:423-459 | an envelope is read as it is, a bare array cut to the page asked for or else whole, anything else as empty |
| Notifications.Store.Refresh | src/store/useNotificationsStore.ts:49-54 | captures whether there were items and shows loading only if not |
| Notifications.Store.LoadMore | src/store/useNotificationsStore.ts:75-86 | does nothing unless more is promised, none is being loaded and the list is below its maximum; else captures the list and the next page |
| Notifications.Store.MarkAsRead | src/store/useNotificationsStore.ts:103-114 | marks at once and captures the list to roll back to |
| Notifications.Store.MarkAllAsRead | src/store/useNotificationsStore.ts:136-144 | the same for all |
| Notifications.Store.OnListed | src/store/useNotificationsStore.ts:55-66 | a list reply replaces the list, or extends the captured one by the rows not in it |
| Notifications.Store.OnMarked | src/store/useNotificationsStore.ts:116-126 | the marked row takes the reply's fields |
| Notifications.Store.OnRejected | src/store/useNotificationsStore.ts:127-133 | a failed mark rolls the list back to what was captured |
| Notifications.MarkAppliesIff | src/store/useNotificationsStore.ts:103-106 | a mark applies if and only if the first row with the id is there and unread |
| Notifications.BeginBegins | src/store/useNotificationsStore.ts:49-144 | how each action begins: what it shows, what it captures, which page and how many rows it asks for, and when it does nothing |
| Notifications.ListedLists | src/store/useNotificationsStore.ts:55-157 | a reply to a refresh or a mark of all replaces the list; a further page adds its rows whose ids were not in the captured list, and more is promised only below the maximum and if some row was new |
| Notifications.RunFits | src/store/useNotificationsStore.ts:49-161 | under every overlap of actions, replies and rollbacks ids stay distinct and the count within the maximum |
| Notifications.QuietShowsNothing | src/store/useNotificationsStore.ts:49-161 | once every request has settled nothing shows as loading, as loading more or as saving |
| Notifications.RunIsIndicated | src/store/useNotificationsStore.ts:75-98 | at most one page is ever being loaded |
| Notifications.FailedMarkRollsBack | src/store/useNotificationsStore.ts:103-133 | whatever happened meanwhile a failed mark restores the list from before it; it undoes itself alone if no event in between put a list on screen |
| Notifications.FailedMarkAllRollsBack | src/store/useNotificationsStore.ts:136-159 | the same for a failed mark of all |
| Notifications.PutsListWhen | src/store/useNotificationsStore.ts:49-161 | a list is put on screen by a reply of rows, a mark that applies, a marked row that came back, or a failed mark, and by nothing else |
| Notifications.LateRollbackDropsRefresh | src/store/useNotificationsStore.ts:127-133 | a mark that fails after a refresh came back restores the list from before the refresh |
| Notifications.ReadAfterLoadMoreIff | src/store/useNotificationsStore.ts:87-98 | after a further page a row is read if and only if it was when the page was asked for, or it came read with the page and was not on screen |
| Notifications.LoadMoreForgetsMarks | src/store/useNotificationsStore.ts:75-98 | so no mark made while a page loads survives its arrival, whatever else happens meanwhile |
| NotificationLists.OnScreenIff | src/store/useNotificationsStore.ts:49-161 | a list is on screen after a run if and only if no event put another there, or the last to do so is the rollback of a mark that began while it was there |
| NotificationLists.FailedMarkUndoesItself | src/store/useNotificationsStore.ts:103-133 | so exactly after such events the list on screen is still the marked one when the mark fails, and then the mark is all that is undone |
| NotificationLists.FailedMarkAllUndoesItself | src/store/useNotificationsStore.ts:136-159 | the same for a failed mark of all |
| NotificationLists.LatePageBringsItsListBack | src/store/useNotificationsStore.ts:75-98 | when a further page arrives, a row on screen until then stays if and only if it was in the list the page was asked for with, or comes with the page and is new to that list |
| NotificationLists.LatePageDropsRefresh | src/store/useNotificationsStore.ts:75-98 | the rows of a refresh that came back in between are otherwise gone |
| ModuleCache.SetCappedRecord | src/store/useDashboardModuleCache.ts:22-40 | the copy with the key moved to the end and the oldest keys deleted one by one |
| ModuleCache.Store.SetData | src/store/useDashboardModuleCache.ts:47-50 | the data record is written with its cap of 48 and the other record is untouched |
| ModuleCache.Store.InvalidatePrefix | src/store/useDashboardModuleCache.ts:57-64 | exactly the keys with the prefix are deleted |
| ModuleCache.RunAgrees | src/store/useDashboardModuleCache.ts:22-64 | after any run: within the cap, last-written values in order of writing, nothing invalidated since, and a missing key was pushed out by the cap's worth of later keys |
| ModuleCache.ReadsAreCurrent | src/store/useDashboardModuleCache.ts:45-46 | what is read under a key is what was last written and not invalidated since |
| ModuleCache.WritesHoldTheLatest | src/store/useDashboardModuleCache.ts:22-40 | after writes alone exactly the last maxKeys distinct keys remain |
| Grading.ToFixed2IsNearest | src/services/daily-approvals/daily-approval-derived.ts:27 | the rounded grade is as near as any multiple of a hundredth |
| Grading.ToFixed2Reaches | src/services/daily-approvals/daily-approval-derived.ts:64-69 | rounding reaches a whole number of hundredths exactly from half a hundredth below it on |
| Grading.FinalGradeInRange | src/services/daily-approvals/daily-approval-derived.ts:11-33 | scores from 0 to 100 give a final grade from 0 to 20 |
| Grading.OutcomeShown | src/services/daily-approvals/daily-approval-derived.ts:11-104 | the outcome shown is dropped for who dropped out, in progress or none while no graded week has a score, and else passed or failed as the mean of those that do reaches the threshold; the grade is a fifth of that mean, rounded |
| Grading.SummaryOutcome | src/services/daily-approvals/daily-approval-derived.ts:53-71 | from a summary there is no grade before a week is scored; then it passes if and only if the rounded grade reaches a fifth of the threshold |
| Grading.UnreadAdds | src/services/daily-approvals/daily-approval-derived.ts:78-85 | a week counts as unread from when it is handed in until it is read or archived |
| Grading.RoutesDifferExactlyWhen | src/services/daily-approvals/daily-approval-derived.ts:11-71 | fed the same average both routes show the same grade, and disagree on passing exactly when it is under the threshold by at most 0.005 on 20; then the summary route passes |
| Grading.MaskedWeeks | src/services/daily-approvals/attachment-visibility.ts:25-32 | masking changes only the files and their flag, and leaves an observer without permission no file |
| Grading.MaskingKeepsDerived | src/services/daily-approvals/attachment-visibility.ts:44-58 | the derived fields are the same whether or not files are hidden |
| Grading.MaskIsIdempotent | src/services/daily-approvals/attachment-visibility.ts:44-58 | masking twice is masking once |
| Grading.MaskCommutesWithDeriving | src/services/daily-approvals/attachment-visibility.ts:44-58 | masking before or after deriving gives the same trainee |
| OrgDelete.BuildOrgDeleteBlockedSets | src/services/org-structure/org-structure-delete-rules.ts:18-42 | the loop-built sets hold an id if and only if it is not empty and some tracked row refers to it |
| OrgDelete.IsOrgEntityDeleteBlocked | src/services/org-structure/org-structure-delete-rules.ts:65-71 | blocked if and only if a tracked row refers to it |
| OrgDelete.DeleteTakesOnlyIt | src/services/org-structure/org-structure-delete-rules.ts:18-53 | a delete takes the rows of its id out of its table and leaves every other row and table |
| OrgDelete.RunKeepsResolving | src/services/org-structure/org-structure-delete-rules.ts:18-53 | any run of unblocked deletes keeps every tracked reference resolvable |
| OrgDelete.CityDeleteMayOrphanFaculties | src/services/org-structure/org-structure-delete-rules.ts:28-30 | an unblocked city delete keeps faculties' city links if and only if no faculty uses the city |
| ApiError.JoinAll | src/services/api-error.ts:48-58 | the loop with its seen set joins the distinct trimmed non-empty values in order of first appearance |
| ApiError.PushAll | src/services/api-error.ts:134-142 | values go to the specific or the generic list, each in order |
| ApiError.CollectFromRecord | src/services/api-error.ts:128-169 | the collector returns the specific pieces if there are any, else the generic ones, at every level |
| ApiError.ValidationLeaves | src/services/api-error.ts:64-103 | every string the validation walk returns is a trimmed string of the payload |
| ApiError.PiecesAreLeaves | src/services/api-error.ts:48-193 | each joined piece is a trimmed, non-empty string of the payload, none is repeated, and none that was collected is lost |
| ApiError.FromRecordPrefersOnce | src/services/api-error.ts:128-169 | preferring specific pieces at every level comes to preferring once over everything |
| ApiError.GenericGivesWay | src/services/api-error.ts:128-169 | if anything specific was collected at any level, no generic phrase or three-digit code is shown |
| ApiError.ExtractedText | src/services/api-error.ts:172-193 | text that does not parse is shown trimmed unless that is empty; everything else gives the join of the payload's own strings, and nothing if and only if none was collected |
| PayloadStrings.GivesExactly | src/services/api-error.ts:64-103 | the validation walk finds a string if and only if the tree gives it: five levels deep at most, an object's own message, constraints and children before its other fields |
| PayloadStrings.OffersExactly | src/services/api-error.ts:105-169 | a record's strings, before any give way, are exactly those of its message fields, lists and trees and of the records under error and data, four levels deep at most |
| PayloadStrings.RecordShows | src/services/api-error.ts:128-193 | of a record is shown a string if and only if it offers it and, where anything it offers is no phrase or code of HTTP, the string is none either |
| PayloadStrings.ListShows | src/services/api-error.ts:180-182 | of a list is shown exactly what its items give |
| PayloadStrings.MessageComesFirst | src/services/api-error.ts:128-169 | a record's message, where it is no phrase or code of HTTP, comes first |
| PayloadStrings.JoinAdds | src/services/api-error.ts:48-58 | the pieces are joined in order with the separator between them |

## Left out

- Rendering, hooks, toasts' appearance, scroll and installation: user interface without a deep invariant.
- Network transport, headers, cookies, uploads and logging: a call is an event with a chosen outcome.
- URL and origin filters (`parseSafeReturnUrl`, signed upload targets, path-segment checks): the safe return address is a parameter.
- Regular expressions in general: cache patterns are an exact path, a path with optional query, or one of the prefix forms; templates are lists of literals and placeholders; a newline in a path is not distinguished.
- `specPathToPattern`'s own splitting of the template text, and the odd template with an empty `{}`.
- Locale: `localeCompare` is an arbitrary ranking of the candidates; `toLowerCase` covers ASCII letters.
- `Array.sort` in the nearest-path search is modelled as choosing a first least element, which is all the code reads of the result.
- Floating point: averages and rounding are over exact reals; scores of a student week are whole numbers.
- UTF-8: decoded path parameters are byte strings; characters above ASCII in an undecoded path and invalid UTF-8 are outside the model.
- `src/lib/undoable-mutation.ts`: messages, durations, and the local-only variants without a commit.
- `src/lib/nest-proxy-forward.ts`: everything but the cache's hit, invalidate and fill steps. What the upstream sends a viewer is a body; whether it would answer that viewer with another status is not compared with a hit.
- Null and absent values in the comparison with the OpenAPI Specification, and schemas with several kinds of branches: `SchemaReading` compares the readings on the other values and schemas.
- The validator's wording of errors and its rendering of a location as text; a location is its list of steps. Inherited properties of a JavaScript object are not seen by `in`.
- The fake backend's presence flags of a student week, the change of school or teacher of an enrolment, file contents, and the timestamps of rows other than a week's start, submission and completion.
- `handleUnauthorized`'s effects on the user store and navigation; only its guard and its duration are modelled. Server-side rendering, where nothing is shared, is left out.
- `fetchAllNestProvinces`'s first attempt at an unpaged list, and the sweep of `NotificationsService.markAllAsRead`: the store's action is modelled with its reply as an event.
- `useDashboardModuleCache`: keys that look like integers, which a JavaScript object enumerates first; stored values are opaque tokens.
- `maskDetailAttachments` and the linked-user rule for faculties and majors: single conditionals.
- Mock stores, seeds, menus and label tables: finite data.
