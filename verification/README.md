# Verification of the district platform's hard parts

Dafny models of the parts of the repository that hold real algorithms and protocols, with proofs of what they
are for. `dafny verify dfyconfig.toml` checks everything.

| files | what they model |
|---|---|
| `ZoneNames`, `ZoneTables`, `ZoneQuotient`, `ZoneMergeLoop`, `ZoneSeed` | the zone seed: alias rows are merged by canonical name, and clubs, role grants and announcement audiences follow, though only clubs have a foreign key |
| `OutboxProtocol`, `OutboxDrain`, `Recipients` | the notification outbox: dispatchers, sweeper and workers around a queue deduplicated by job id |
| `CacheKey`, `CacheStore`, `CachePaths`, `ModelTags`, `CacheCoherence` | the tagged response cache, its key, its purges, and when a hit is what the handler would say |
| `CheckinProtocol`, `Slugs` | event check-in: capacity under concurrency, single-use passes, the slug search |
| `ResendLimiter` | the sliding window of the OTP resend limit |
| `Csv`, `CsvLines`, `CsvRoundTrip`, `MemberImport` | the CSV printer and parser, and the member import's preview and commit |
| `Audience` | who an announcement addressed to roles reaches |
| `ClubImport`, `ClubImportRun` | the fill-only import of legacy club records |
| `Points`, `PointsSummary` | point entries and the club points summary |
| `Text`, `Sets` | JavaScript string operations, and one fact about sets |

Code that changes things step by step is a class or method with loops, proved equal to a function of the old
state; the promises are then proved about that function. Concurrent code is a state machine whose steps
interleave freely, and the promises are proved for all its runs.

Where the code does not keep a promise everywhere, the model keeps the code, shows an input or run that breaks
the promise, and says exactly when it holds:

- The cache is coherent for a route if and only if the route's tags meet the tags of every model it reads.
  `/public/zones` is tagged `clubs` while writes to zones purge `zones`, so it is not covered
  (`src/public/public.controller.ts:116-118`, `src/cache/model-tag-map.ts:8`). This is about runs in which no purge
  deletes a tag of the route between a handler and the `set` of its answer, and it comes in two forms. If the first
  purge of a write does not, a hit is current unless that purge is still under way. If only the queued repetition of
  the purge does not, a hit is current unless some purge, inline or queued, is still to come: that is what the second
  purge buys. Nothing in the code prevents a miss from being overtaken by both, and then its entry stays stale with no
  purge to come, so without such a condition only routes that read nothing are coherent
  (`CacheCoherence.AlwaysCoherentIffNothingRead`). A hit is always less than an hour old.
- The capacity gate is check-then-act, so the guarantee with k requests in flight is c + k - 1 check-ins, and
  that bound is reached. The capacity itself is kept in all runs if and only if k is at most 1 or c is 0.
- Among requests whose paths have no `?`, a request shares its cache key with another if and only if its query has at
  least two parameters, or one with `=` in its name or its value.
- A pass can make two check-ins if and only if its first scan may come within the second of its issue, plus the time
  that a scan may take. The token test accepts `now == exp`, one second more than section 4.1.4 of RFC 7519 allows
  (`src/events/event-checkin-token.util.ts:64`), and that second is the margin.
- CSV exports read back if and only if no cell contains a line break.
- The zone seed stops if and only if some club without a slug is left to whom neither of the two slugs that it could
  get is free.
- A row that is marked sent stays sent and is never mailed again, unless the queue gives an active job to a
  second worker, loses it, or the reply to `markSent` is lost: it is so in all runs if and only if none of these three
  events may happen. Mail goes out once, plus once more for each `markSent` that fails after a delivery.
- A commit of the rows previewed as new finishes if and only if none of their emails belongs to a user without a
  profile: preview and commit look only at profiles (`src/members/members.repository.ts:102-109`), while the unique
  email of users decides whether a member can be created.
- Each club officer is protected from the placeholder of his own role only. A run leaves a placeholder of any role in
  an officer field if and only if it was there before, or the last record that fills the field, or makes the row, has
  it there and is not gated.

## Model

| member | source | states |
|---|---|---|
| `ZoneNames.CanonicalZoneIsFixed` | prisma/seed/zones.ts:19-23 | A canonical zone name is its own normal form. |
| `ZoneNames.CanonicalIsIdempotent` | prisma/seed/zones.ts:19-23 | For every text, taking the normal form of a zone name twice is taking it once. |
| `ZoneNames.NormalFormIff` | prisma/seed/zones.ts:17-23 | A text has a canonical zone as its normal form if and only if it is that name in any letter case, alone or after the word zone and some white space, with white space around it; a text that names none of the four is only trimmed. |
| `ZoneQuotient.RedirectRolesStaysUnique` | prisma/seed/zones.ts:32-51 | The DELETE that precedes the UPDATE is enough: redirecting the grants that are left never breaks the unique key [userId, roleId, scopeType, scopeId]. |
| `ZoneQuotient.RedirectRolesKeepsImage` | prisma/seed/zones.ts:32-51 | After one more redirect the grants held are still exactly the images of the original grants under the merged map, without duplicates, and rows outside zone scope all survive. |
| `ZoneQuotient.RedirectAudienceKeepsImage` | prisma/seed/zones.ts:55-76 | After one more rewrite the zone ids of an announcement are, as a set, the image of the original ones, and a rewritten array has no duplicates; other Json is untouched. |
| `ZoneQuotient.RedirectKeepsImage` | prisma/seed/zones.ts:92-94 | One merge keeps clubs, grants and audiences the image of the original tables, now along the composed map. |
| `ZoneQuotient.OnlyAliasAtAlias` | prisma/seed/zones.ts:84-120 | Until an alias is visited, no other old row has been merged into it. |
| `ZoneQuotient.RenameKeepsZones` | prisma/seed/zones.ts:116-118 | The rename branch keeps the relation between old and surviving rows. |
| `ZoneQuotient.MergeKeepsZones` | prisma/seed/zones.ts:88-114 | The merge branch keeps it too, whichever of the two rows is kept, and names stay unique. |
| `ZoneQuotient.MergedIsQuotient` | prisma/seed/zones.ts:78-121 | When every row has been visited, two old rows share a surviving row iff their canonical names agree, the survivor has that name, and all references moved along the map. |
| `ZoneMergeLoop.RedirectKeepsMovesPaidFor` | prisma/seed/zones.ts:89-92 | Weighted union: moving the smaller zone keeps 2^(rewrites of a club) at most the number of clubs in its zone. |
| `ZoneMergeLoop.MovesAreLogarithmic` | prisma/seed/zones.ts:89-92 | No club is rewritten more than log2(number of clubs) times. |
| `ZoneMergeLoop.IndexAfterMerge` | prisma/seed/zones.ts:104-109 | After a merge the cached counts in byName are again the real club counts, and every canonical row is in the index. |
| `ZoneMergeLoop.IndexAfterRename` | prisma/seed/zones.ts:116-118 | The same after a rename; a canonical name missing from the index is a name that no row has. |
| `ZoneMergeLoop.MergeStep` | prisma/seed/zones.ts:88-114 | One merge iteration keeps the whole loop relation: zones, references, index, pending counts and move cost. |
| `ZoneMergeLoop.RenameStep` | prisma/seed/zones.ts:116-118 | One rename iteration keeps it, and the unique name cannot refuse the update. |
| `ZoneMergeLoop.ZoneStore.MoveZoneScopedRoles` | prisma/seed/zones.ts:32-51 | The update after the delete always succeeds; the count returned is the number of grants that disappeared. |
| `ZoneMergeLoop.ZoneStore.MergePair` | prisma/seed/zones.ts:92-109 | The statements of the merge branch, in their order, never strand a club, never fail, and together are one merge of the four tables. |
| `ZoneMergeLoop.ZoneStore.VisitRow` | prisma/seed/zones.ts:84-120 | One iteration of the loop never aborts and keeps the loop relation; a row that is not an alias changes nothing. |
| `ZoneMergeLoop.ZoneStore.MergeAliasZonesInTx` | prisma/seed/zones.ts:78-121 | For every valid database and every listing order the transaction commits (the stranded-clubs error is unreachable), the result is the quotient by canonical name, every rewrite is paid for, and without aliases nothing changes. |
| `ZoneSeed.SeedNames` | prisma/seed/zones.ts:146-154 | The seeded names are distinct, all in normal form, and exactly the four canonical ones plus the normal forms of the non-empty zone texts. |
| `ZoneSeed.UpsertZone` | prisma/seed/zones.ts:155-162 | An upsert by unique name seeds that name and order, keeps the others seeded, and does nothing when the row is already so. |
| `ZoneSeed.OrderOfSeeded` | prisma/seed/zones.ts:154-161 | The seeded zones have the orders 0 to 3 for Prithvi, Agni, Vayu and Akash, and 14, 15, ... for the others as they came. |
| `ZoneSeed.ZoneIdForIsRight` | prisma/seed/zones.ts:163-170 | The zone id looked up for a club is the only one that is right for it. |
| `ZoneSeed.SlugForIs` | prisma/seed/zones.ts:173-174 | The new slug is that of the name, or else the id in lower case; when it is taken, the first six letters of the id follow after a hyphen. |
| `ZoneSeed.RefusedIffNoFreeSlug` | prisma/seed/zones.ts:168-178 | The unique slug refuses the update of a club if and only if the club has none and both that it could get are in use. |
| `ZoneSeed.AssignClubs` | prisma/seed/zones.ts:165-180 | When it finishes, every club has the right zone id and a slug; when all clubs already have them, none is written; slugs stay unique, and it finishes if and only if no club is left without a free slug. |
| `ZoneSeed.SeedZonesFromClubs` | prisma/seed/zones.ts:136-181 | A successful run reaches the settled state; from a settled state a run changes no row of any table; and it is successful if and only if no club is left without a free slug. |
| `ZoneSeed.SettledClubsHaveZones` | prisma/seed/zones.ts:147-170 | In the settled state every club with a zone text is in the one row of its canonical zone. |
| `Recipients.ResolveRecipients` | src/notifications/notification-dispatch.service.ts:62-88 | The loop with its pre-fetched emails computes the specification: asking only for users without a given address misses nobody. |
| `Recipients.OneRecipient` | src/notifications/notification-dispatch.service.ts:69-80 | A recipient's own address goes before that of his user, and an empty address is none. |
| `Recipients.EachAddressOnce` | src/notifications/notification-dispatch.service.ts:69-87 | Every address that some recipient has is written to exactly once whatever its letter case, from the first recipient that has it, and no other address is. |
| `OutboxProtocol.StepKeepsInv` | src/notifications/notification-send.processor.ts:54-109 | Each step of dispatch, sweep, queue, worker and eviction keeps the invariant: one worker per row, what a worker has loaded is still true, and deliveries are accounted for. |
| `OutboxProtocol.BenignRunsKeepInv` | src/notifications/notification-send.processor.ts:54-109 | The invariant holds throughout every interleaving of such steps. |
| `OutboxProtocol.StepLeavesSentRowAlone` | src/notifications/notification-send.processor.ts:60 | No step changes a sent row or calls the provider for it, even when a sweep has re-added its job. |
| `OutboxProtocol.SentIsFinal` | src/notifications/notifications.constants.ts:12-21 | From the moment a row is marked sent it never changes again and the provider is never called for it again, in every benign run. |
| `OutboxProtocol.DeliveriesAreCounted` | src/notifications/notification-send.processor.ts:80-94 | A row is delivered once, plus once for each failed markSent after a delivery; exactly so when it is not being marked. |
| `OutboxProtocol.StallLetsSecondWorkerIn` | src/notifications/notifications.constants.ts:12-21 | If the queue takes a busy worker for dead, a second worker holds the same sendable row. |
| `OutboxProtocol.LossLetsSecondWorkerIn` | src/notifications/notification-send.processor.ts:97-109 | So it does if the job of a busy worker is lost while a sweep is about to enqueue its row. |
| `OutboxProtocol.StallSendsTwice` | src/notifications/notification-send.processor.ts:60-88 | When two workers hold a row, one sends and marks it, and the other can still call the provider. |
| `OutboxProtocol.LostReplyRevivesRow` | src/notifications/notification-send.processor.ts:88-93 | If markSent is applied but its reply is lost, the catch block queues the sent row again, or on the final attempt calls it failed. |
| `OutboxProtocol.StallIsUnsafe` | src/notifications/notification-send.processor.ts:54-95 | A run from the empty outbox in which a stall leads to a provider call for a sent row, for every known template. |
| `OutboxProtocol.LossIsUnsafe` | src/notifications/notification-send.processor.ts:54-109 | The same with a lost job instead of a stall. |
| `OutboxProtocol.LostReplyIsUnsafe` | src/notifications/notification-send.processor.ts:80-94 | A run from the empty outbox in which a lost reply leads to a sent row that is queued again. |
| `OutboxProtocol.SafeIffNoneAllowed` | src/notifications/notification-send.processor.ts:54-109 | Over which of the three events may happen: sent is final in all runs if and only if none may, or no template is known. |
| `OutboxDrain.TakenAreOldest` | src/notifications/notification-outbox.repository.ts:96-107 | A stale row that a sweep leaves out is no older than any row it takes. |
| `OutboxDrain.SweptIsBacklog` | src/notifications/notification-outbox.repository.ts:96-107 | A sweep takes only rows that have been queued for more than two minutes with fewer than 5 attempts, and all of them when the batch is not full. |
| `OutboxDrain.TryAll` | src/notifications/notification-send.processor.ts:54-95 | However the provider behaves, running a job to its end leaves its row not queued. |
| `OutboxDrain.AcceptedAttemptSends` | src/notifications/notification-send.processor.ts:80-94 | If attempt k is the first that the provider accepts, the row ends sent by it, with one attempt counted for each that was not accepted and one call more than those. |
| `OutboxDrain.NoAcceptedAttemptFails` | src/notifications/notification-send.processor.ts:89-94 | If the provider accepts none of the attempts that are left of 5, the row ends failed after a call for each of them, and the job is retained. |
| `OutboxDrain.UnknownTemplateFails` | src/notifications/notification-send.processor.ts:62-65 | A row of an unknown template ends failed without a call, and its job completes. |
| `OutboxDrain.MutedIsSuppressed` | src/notifications/notification-send.processor.ts:69-78 | When mails are muted, a row of another template than otp and password-reset ends sent by "muted" without a call. |
| `OutboxDrain.AttemptsEnd` | src/notifications/notification-send.processor.ts:54-95 | These cases together, with the row that is sent already, which stays as it is, say how every job ends. |
| `OutboxDrain.AttemptFollowsProtocol` | src/notifications/notification-send.processor.ts:54-95 | In the protocol, the steps of an attempt that nothing disturbs are enabled one after the other and leave the row, the job, the worker and the counts as one run of processSend does. |
| `OutboxDrain.DispatchFollowsProtocol` | src/notifications/notification-dispatch.service.ts:43-59 | In the protocol, a create and an enqueue leave a queued row that has not been tried, and a job for it. |
| `OutboxDrain.EvictionFreesId` | src/notifications/notifications.constants.ts:12-21 | A retained job keeps its row from being enqueued, and an evicted one does not. |
| `OutboxDrain.Calls` | src/notifications/notifications.constants.ts:13-21 | A job makes at most 5 minus the attempts already made provider calls. |
| `OutboxDrain.Outbox.Add` | src/notifications/notifications.constants.ts:12-16 | Adding a job id that is already there does nothing. |
| `OutboxDrain.Outbox.ProcessSend` | src/notifications/notification-send.processor.ts:54-95 | One attempt: which row results, whether it throws and whether the provider was called, on every branch; no other row changes. |
| `OutboxDrain.Outbox.RunJob` | src/notifications/notifications.constants.ts:13-21 | Attempts repeat until one does not throw or the fifth has; a completed job is removed and a failed one retained. |
| `OutboxDrain.Outbox.Sweep` | src/notifications/notification-send.processor.ts:97-109 | A sweep adds a job for each of the oldest stale rows that has none, and changes no other job. |
| `OutboxDrain.Outbox.RunAllJobs` | src/notifications/notifications.constants.ts:13-21 | Running all waiting jobs runs each exactly once to its end and leaves rows without a waiting job alone. |
| `OutboxDrain.SweepTakesBacklogFirst` | src/notifications/notification-outbox.repository.ts:96-107 | While the backlog fills a batch, the sweep takes the whole batch from it, whatever has become stale or been added since. |
| `OutboxDrain.RoundDrains` | src/notifications/notification-send.processor.ts:97-109 | A round takes a full batch off the backlog, or all that is left, and puts no row back into the queue. |
| `OutboxDrain.Outbox.Dispatch` | src/notifications/notification-dispatch.service.ts:43-59 | Rows are added, and a job for each whose enqueue succeeds; no other job changes. |
| `OutboxDrain.Outbox.Drain` | src/notifications/notification-outbox.repository.ts:96-107 | n stale rows without a job have all ended after ceil(n/200) rounds, each as its first accepted attempt, its template and the mute switch decide, with exactly the provider calls of that, whatever rows are dispatched between the rounds. |
| `CacheKey.SortSorts` | src/cache/cache-key.util.ts:4-5 | The sort by code yields a strictly increasing list of the distinct keys. |
| `CacheKey.LessIff` | src/cache/cache-key.util.ts:4-5 | The order of the sort: a prefix comes first, and else the smaller letter at the first difference. |
| `CacheKey.KeyIgnoresOrder` | src/cache/cache-key.util.ts:3-9 | Queries that are equal as maps give the same cache key whatever the insertion order. |
| `CacheKey.KeyIsInjective` | src/cache/cache-key.util.ts:3-9 | For paths without ?, names without & and =, and values without &, equal cache keys mean equal path and query. |
| `CacheKey.UncleanKeysCollide` | src/cache/cache-key.util.ts:3-9 | A value with & can pass for two parameters, so two different queries share a key. |
| `CacheKey.SharesKeyIff` | src/cache/cache-key.util.ts:3-9 | Among requests whose paths have no ?, another path or query with the same key exists if and only if the query has two parameters or more, or one with = in its name or its value. |
| `CacheStore.WithEntryIsIndexed` | src/cache/cache.service.ts:21-31 | A set keeps every entry in the set of each of its tags. |
| `CacheStore.WithoutTagIsClean` | src/cache/cache.service.ts:33-39 | Deleting by tag leaves no entry with the tag and keeps the index right. |
| `CacheStore.SetBetweenTheTwoCallsLeaks` | src/cache/cache.service.ts:35-36 | delByTag is two calls: a set between them leaves an entry that no later delete by that tag removes. |
| `CacheStore.CacheService.Get` | src/cache/cache.service.ts:15-19 | Reads the entry that is there and has not expired. |
| `CacheStore.CacheService.Set` | src/cache/cache.service.ts:21-31 | The pipeline writes the entry and adds the key to every tag set. |
| `CacheStore.CacheService.DelByTag` | src/cache/cache.service.ts:33-39 | Removes the members of the tag set and the set, and counts the members. |
| `CacheStore.CacheService.PurgeAllKeys` | src/cache/cache.service.ts:41-52 | The two cursor loops empty the cache, for any batches that a full scan may return. |
| `CachePaths.Intercept` | src/cache/cache.interceptor.ts:25-59 | Untagged routes and other methods bypass the cache; a hit answers the stored body and changes nothing; a miss answers and stores what the handler computed. |
| `CachePaths.StoredUntilExpiredOrPurged` | src/cache/cache.interceptor.ts:46-58 | What a miss stores is served until its hour is over or one of its tags is purged, and is not touched by other tags. |
| `CachePaths.PurgeTags` | src/cache/cache-purge.processor.ts:24 | The loop over tags deletes by each of them. |
| `CachePaths.PurgeRemovesMembers` | src/cache/cache-invalidator.service.ts:26-30 | A purge removes exactly the keys in the set of one of its tags, so the order of the tags is irrelevant. |
| `CachePaths.PurgedIsClean` | src/cache/cache-purge.processor.ts:24 | No entry with a purged tag is left. |
| `ModelTags.PublicClubsIsCovered` | src/public/public.controller.ts:108-114 | GET /public/clubs declares a tag that every write to the model it reads purges. |
| `ModelTags.PublicZonesIsNotCovered` | src/public/public.controller.ts:116-121 | GET /public/zones does not: it declares clubs, and writes to zones purge zones. |
| `CacheCoherence.WriteKeepsFresh` | src/prisma/cache-invalidation.extension.ts:21-28 | For either way of counting on purges, a write leaves every body of a covered route current or with such a purge of one of its tags to come. |
| `CacheCoherence.PurgeStepKeepsDue` | src/cache/cache-invalidator.service.ts:26-34 | What a purge, or the one it queues, is still going to delete stays so, unless a purge that is counted on deletes one of these tags. |
| `CacheCoherence.StepKeepsFresh` | src/prisma/cache-invalidation.extension.ts:21-28 | Of all steps, only the delete of a tag of its route, by a purge that is counted on, can leave a body of a covered route stale with no such purge to come. |
| `CacheCoherence.EntryStaysFresh` | src/cache/cache.service.ts:33-39 | That delete cannot do so to a stored entry, because it removes every entry with the tag. |
| `CacheCoherence.PurgeRuns` | src/cache/cache-invalidator.service.ts:26-34 | A purge deletes its tags one by one and ends; an inline one then queues its repetition and a queued one queues nothing, so a miss in flight outlasts both. |
| `CacheCoherence.StepKeepsSound` | src/prisma/cache-invalidation.extension.ts:21-28 | Every step keeps all stored bodies of covered routes fresh, and those in flight that no such delete has overtaken since they were computed. |
| `CacheCoherence.HitsAreCurrent` | src/cache/cache-purge.processor.ts:18-26 | If between a handler of a covered route and its set no first purge of a write (or, for the second form, no queued purge) deletes a tag of the route, a hit on a covered route returns what the handler would compute now, unless such a purge of one of its tags is still to come (for the second form: any purge, inline or queued). |
| `CacheCoherence.RaceGoesStale` | src/cache/cache.interceptor.ts:53-57 | For every route that reads a model, every clean request and every database there is a run, from the empty cache: a miss, a write, its whole purge, the whole queued purge that repeats it, and then the set of the miss; it ends in a stale hit with no purge of any kind to come. |
| `CacheCoherence.OvertakenStoreIsStale` | src/cache/cache.interceptor.ts:53-57 | Storing a body that a write and all its purges have overtaken makes the next request a stale hit with no purge to come. |
| `CacheCoherence.MissThenWriteIsRun` | src/prisma/cache-invalidation.extension.ts:21-28 | One miss, its store and one write are an admissible run of both forms, for every route, request and database. |
| `CacheCoherence.UncoveredRouteGoesStale` | src/cache/model-tag-map.ts:41-44 | For a route that is not covered, that run ends in a stale hit with no purge of its tags to come, inline or queued. |
| `CacheCoherence.CoherentIffCovered` | src/cache/model-tag-map.ts:3-44 | For both forms, a route is coherent in all admissible runs if and only if its tags meet the tags of every model it reads. |
| `CacheCoherence.AlwaysCoherentIffNothingRead` | src/cache/cache.interceptor.ts:53-57 | Without a condition on runs a route is coherent, even counting on the queued purge, if and only if it reads no model at all. |
| `CacheCoherence.HitsAreLessThanAnHourOld` | src/cache/cache.service.ts:21-31 | In every run, for every route, a hit was stored less than an hour ago, and since then no purge has deleted one of its tags, nothing has emptied the cache and nothing else has been stored under its key. |
| `CacheCoherence.StoredIsServed` | src/cache/cache.service.ts:15-31 | What a miss stores is served for an hour and not longer. |
| `CheckinProtocol.StepKeepsCapacity` | src/events/events-admin.service.ts:357-376 | Rows plus requests past the gate never exceed c + k - 1, and no member has two rows, after any step. |
| `CheckinProtocol.CapacityIsAlmostKept` | src/events/events-admin.service.ts:362-376 | With capacity c and at most k requests in flight, no interleaving of counts, creates and removals records more than c + k - 1 check-ins, nor two for one member. |
| `CheckinProtocol.CapacityIsOverrun` | src/events/events-admin.service.ts:362-376 | For every c >= 1 and k >= 1 there is a run that reaches c + k - 1. |
| `CheckinProtocol.CapacityKeptIff` | src/events/events-admin.service.ts:362-376 | The capacity c is kept in every run with at most k requests in flight if and only if k is at most 1 or c is 0. |
| `CheckinProtocol.EntryCreatesRow` | src/events/events-admin.service.ts:357-376 | When nothing else happens, a request whose member is known leaves a row of that member, unless there is one or the event is full, and nothing else. |
| `CheckinProtocol.NamedIsResolved` | src/events/events-admin.service.ts:304-312 | A named member or a walk-in gets that far. |
| `CheckinProtocol.PassIsVerified` | src/events/event-checkin-token.util.ts:63-66 | A pass is verified if and only if it has no expiry or has not expired, to the second. |
| `CheckinProtocol.PassIsScanned` | src/events/events-admin.service.ts:278-289 | With Redis a verified pass gets that far unless it has been scanned in the last seven days, and then its replay key is set for seven days. |
| `CheckinProtocol.ScanKeepsToken` | src/events/events-admin.service.ts:278-289 | The replay key set by a first scan outlives the last moment at which a verified copy of the pass can still be scanned. |
| `CheckinProtocol.PassIsUsedOnce` | src/events/events-admin.service.ts:278-289 | With Redis, a pass first scanned in a later second than it was issued in creates at most one check-in in any run, removals included. |
| `CheckinProtocol.ReuseAfterFirst` | src/events/events-admin.service.ts:278-289 | The run with two check-ins, one request after the other, with a removal in between. |
| `CheckinProtocol.ReuseOfTwoCopies` | src/events/events-admin.service.ts:278-289 | The same for a first scan after the pass has expired, by two requests that verified it before. |
| `CheckinProtocol.ReplayWindow` | src/events/event-checkin-token.util.ts:63-66 | That margin is exact, for every pass, first scan and latency: some run makes two check-ins with one pass if and only if the first scan may come before the second after its issue, plus the time a scan may take. |
| `Slugs.DecimalIsInjective` | src/events/events-admin.service.ts:830 | Different counters print differently. |
| `Slugs.DecimalDenotes` | src/events/events-admin.service.ts:830 | A counter is printed in digits that denote it, without a leading zero. |
| `Slugs.CandidateCounts` | src/events/events-admin.service.ts:823-831 | The candidates are the base, and the base with a hyphen and 2, 3, 4, ... |
| `Slugs.CandidatesAreDistinct` | src/events/events-admin.service.ts:823-831 | base, base-2, base-3, ... are pairwise distinct for every base. |
| `Slugs.TakenCandidatesAreFew` | src/events/events-admin.service.ts:825-832 | k taken candidates need k events. |
| `Slugs.UniqueSlug` | src/events/events-admin.service.ts:821-833 | The unbounded loop stops within (number of events + 1) iterations at the first candidate that is free or already the excluded event's own. |
| `ResendLimiter.SecondFactorService.AssertResendAllowed` | src/auth/second-factor.service.ts:91-104 | Filters, refuses without recording, or records the attempt. |
| `ResendLimiter.StoredIsEnough` | src/auth/second-factor.service.ts:93-103 | Dropping old attempts loses nothing: the stored list answers every later question as the full history would. |
| `ResendLimiter.AllowedIffWindowHasRoom` | src/auth/second-factor.service.ts:93-101 | A request is allowed iff fewer than 3 allowed ones for its email lie in the 10 minutes that end with it. |
| `ResendLimiter.AtMostThreePerWindow` | src/auth/second-factor.service.ts:91-104 | In every run with a clock that does not go back, no window of 10 minutes holds more than 3 allowed requests of one email. |
| `Csv.ParseLine` | src/members/csv.util.ts:1-27 | The index loop computes the scan of the line, trimmed cell by cell. |
| `CsvLines.LineParses` | src/members/csv.util.ts:1-27 | A line of cells, each made of stretches as they are and stretches in quotes in any order, parses to the trimmed texts of the cells; a quote that is never closed takes in the rest of the line. |
| `CsvLines.EveryLineHasCells` | src/members/csv.util.ts:1-27 | Every text is such a line, so this says what the parser yields for every line. |
| `CsvLines.SurroundedIsCell` | src/members/csv.util.ts:16-17 | A stretch in quotes may stand anywhere in a cell: u"v"t reads as uvt. |
| `CsvLines.HasTextIff` | src/members/csv.util.ts:32 | A line counts if and only if it has a letter that is not white space. |
| `Csv.ReadRecord` | src/members/csv.util.ts:38-41 | A later header of the same name wins and a missing cell reads as empty. |
| `CsvRoundTrip.RecordHas` | src/members/csv.util.ts:38-41 | A record has exactly the names of the header, and under each the cell of the last column of that name, or nothing if the line is too short. |
| `Csv.ParseCsv` | src/members/csv.util.ts:31-45 | The parser computes the records of the non-blank lines under the lower-cased headers. |
| `CsvRoundTrip.ScanRow` | src/members/csv.util.ts:1-27 | A printed row is read back cell by cell, for all uses of quotes and commas. |
| `CsvRoundTrip.SplitAtBreak` | src/members/csv.util.ts:32 | A line end between two texts splits them whatever they contain. |
| `CsvRoundTrip.RowsHaveLines` | src/members/csv.util.ts:32 | The printed rows have one non-blank line each if and only if no cell contains a line break; otherwise there are more. |
| `CsvRoundTrip.RoundTripIffNoBreaks` | src/events/events-admin.service.ts:513-544 | Parsing the printed text gives one record per row with every cell trimmed if and only if no cell contains a line break (the parser splits lines before it looks at quotes, unlike section 2 of RFC 4180). |
| `CsvRoundTrip.ExportHeaderIsGood` | src/events/events-admin.service.ts:519-525 | The header of the export meets the conditions of the round trip. |
| `MemberImport.InputsAreTrimmed` | src/members/csv.util.ts:26 | What preview reads is trimmed, so its two ways of normalising an email agree. |
| `MemberImport.RowInputColumns` | src/members/members-imports.service.ts:16-35 | Each field is read from the first of its columns that is filled: fullname, full name, name; email, e-mail; phone, phone number, mobile; rotaryid, rotary id. |
| `MemberImport.OutcomeOfRow` | src/members/members-imports.service.ts:56-75 | A row is invalid iff it has no name or no valid email, and otherwise new iff no member and no earlier row has its email; rows are numbered from 2. |
| `MemberImport.MembersImports.Preview` | src/members/members-imports.service.ts:46-77 | A row is invalid, a duplicate or new as the specification says; the loop over seenInFile and the pre-fetched emails decides that for every file and member table. |
| `MemberImport.MembersImports.CreateMember` | src/members/members.repository.ts:137-165 | A user and a profile are created together, or neither: the unique user email refuses an email that belongs to a user. |
| `MemberImport.MembersImports.Commit` | src/members/members-imports.service.ts:92-125 | The members created are distinct, are in the rows, and were neither members nor users; when the call finishes, committed plus skipped is the number of rows and every row has its member; otherwise some row has the email of a user without a profile, and the members created before stay. |
| `MemberImport.CommittedIsCommitment` | src/members/members-imports.service.ts:99-119 | That is what the loop does for all tables and rows. |
| `MemberImport.CreatedUpToUser` | src/members/members-imports.service.ts:99-119 | Distinct emails of no members are created in their order up to the first that belongs to a user. |
| `MemberImport.NewEmailsAreNew` | src/members/members-imports.service.ts:63-66 | The emails previewed as new are pairwise distinct, nobody's yet, and in normal form. |
| `MemberImport.PreviewAgreesWithCommit` | src/members/members-imports.service.ts:92-125 | On unchanged tables, committing exactly the rows previewed as new finishes, and creates all of them, if and only if none of their emails belongs to a user; otherwise it stops at the first that does. Once it has finished, committing them again creates none. |
| `MemberImport.UserWithoutProfileStopsCommit` | src/members/members.repository.ts:102-109 | It does stop: of two rows previewed as new, the second with the email of a user without a profile, the first is created and the commit fails. |
| `MemberImport.DuplicateOfAnyEarlierRow` | src/members/members-imports.service.ts:63-66 | A complete row with a free email is called a duplicate iff an earlier row has that email, even an invalid one that will not be imported. |
| `Audience.ClubIdsOfZone` | src/announcements/announcements.repository.ts:197-203 | The grouped lists hold exactly the clubs of each zone. |
| `Audience.GrantsByUserId` | src/announcements/announcements.repository.ts:205-210 | The grouped lists hold exactly the grants of each user. |
| `Audience.ScopedIds` | src/announcements/announcements.repository.ts:218-229 | The loop over one user's grants collects exactly the clubs and zones that some grant reaches through the indexes. |
| `Audience.GivesClubIndexed` | src/announcements/announcements.repository.ts:218-229 | A club is reached through the indexes iff a requested role is held for it or for its zone. |
| `Audience.GivesZoneIndexed` | src/announcements/announcements.repository.ts:218-229 | A zone is reached through the indexes iff a requested role is held for it or for one of its clubs. |
| `Audience.FindRoleHolderCandidates` | src/announcements/announcements.repository.ts:153-238 | Exactly one candidate for each user who holds a requested role and has no unapproved profile, with own club, own zone and reached clubs and zones right. |
| `Audience.ResolveRoleHolders` | src/announcements/audience-resolver.ts:19-41 | Without zones and clubs every candidate is selected, otherwise those who match one. |
| `Audience.ResolveRoles` | src/announcements/announcements.repository.ts:153-238 | The two steps together yield exactly the set that is defined without indexes: holders of a requested role, not unapproved, unrestricted or matching by own club or zone or by a requested-role grant. |
| `ClubImport.Updates` | src/legacy-import/club-mapper.ts:113-133 | The list of updates is, field by field, what is open in the database and offered by the source, and empty iff nothing is. |
| `ClubImport.MergeClubFields` | src/legacy-import/club-mapper.ts:79-140 | Creates, updates or leaves alone as the field-by-field specification says. |
| `ClubImport.DecisionIs` | src/legacy-import/club-mapper.ts:77-140 | A club that is not there is created, one with something to fill is updated, and every other is left alone. |
| `ClubImport.OfficerIsWrittenIff` | src/legacy-import/club-mapper.ts:71-133 | An officer field is written iff the database says nothing in it and the source says something and names an officer: president, phone and email are out with "rtr. club president", the three fields of the secretary with "rtr. club secretary". |
| `ClubImport.NoPresidentIsWritten` | src/legacy-import/club-mapper.ts:58-75 | A placeholder president keeps his name, phone and email out. |
| `ClubImport.NoSecretaryIsWritten` | src/legacy-import/club-mapper.ts:58-75 | A placeholder secretary keeps name, phone and email of the secretary out. |
| `ClubImport.OtherFieldIsWrittenIff` | src/legacy-import/club-mapper.ts:88-123 | Of the other fields a new club gets all there are, and an old one those that are missing or empty and are not empty in the source. |
| `ClubImportRun.LegacyImport.ImportClubs` | scripts/import-legacy-district-data.ts:63-102 | The loop takes every decision on the rows as first read; a dry run reports the same counts and writes nothing; a clash of ids ends the run. |
| `ClubImportRun.LookupIsLast` | scripts/import-legacy-district-data.ts:63-65 | A name finds the last row whose name differs at most in letter case and in white space around it. |
| `ClubImportRun.CountedIs` | scripts/import-legacy-district-data.ts:77-98 | The counters say how many records have no row, how many have a complete one, and how many are left; so many rows come in as are counted as created. |
| `ClubImportRun.FinalIsComplete` | src/legacy-import/club-mapper.ts:113-137 | A row that has just been imported has nothing left to fill from the same record. |
| `ClubImportRun.StepOutcome` | scripts/import-legacy-district-data.ts:77-98 | One record leaves its row complete and the rows of all other names what they were. |
| `ClubImportRun.RunOutcome` | scripts/import-legacy-district-data.ts:77-98 | After a run every record has its row, complete, and no other name is touched. |
| `ClubImportRun.SecondRunIsNoop` | scripts/import-legacy-district-data.ts:40-102 | For scraped records with distinct normalised names a second full run reports every record as noop and writes nothing. |
| `ClubImportRun.OrderIsIrrelevant` | scripts/import-legacy-district-data.ts:63-65 | When normalised names are distinct, the order in which rows are read does not change which row a name finds. |
| `ClubImportRun.DuplicateNamesNeedTheOrder` | scripts/import-legacy-district-data.ts:63-65 | With two rows of one normalised name, a second run that reads them in the other order writes again. |
| `ClubImportRun.RunOnlyFills` | src/legacy-import/club-mapper.ts:77-140 | Over a whole run, for all scraped records, no value that was not blank changes, no row loses its identity, and no officer becomes the placeholder of his role. |
| `ClubImportRun.RunIsSourced` | src/legacy-import/club-mapper.ts:77-140 | Every value after a run is an old one in its place, or comes from a record of that name whose officer is no placeholder. |
| `ClubImportRun.RunOutcomes` | scripts/import-legacy-district-data.ts:63-102 | After a run over any records, each field of an old row has what the last record that fills it offers, or what it had if none does, and each new row is what its record makes. |
| `ClubImportRun.GatedFieldsStay` | src/legacy-import/club-mapper.ts:71-75 | The name, phone and email that come with a placeholder officer are never written: the row keeps what it had in these fields. |
| `ClubImportRun.LastOfferFills` | src/legacy-import/club-mapper.ts:71-133 | After a run over any records, an officer field in which the database said nothing has what the last record of the row that names an officer offers. |
| `ClubImportRun.UnofferedStays` | src/legacy-import/club-mapper.ts:71-133 | In every other case the field is what it was. |
| `ClubImportRun.PlaceholdersChangeNothing` | src/legacy-import/club-mapper.ts:58-75 | When all records of a row name the placeholder president, it keeps president, phone and email; so with the three fields of the secretary. |
| `ClubImportRun.NewRowHasOffers` | src/legacy-import/club-mapper.ts:88-111 | A new row has in each officer field what its record offers about an officer that it names, and nothing else. |
| `ClubImportRun.MakersDiffer` | scripts/import-legacy-district-data.ts:77-98 | Two records that make rows in one run have different names, because the second would have the id of the first. |
| `ClubImportRun.PlaceholderAfterRun` | src/legacy-import/club-mapper.ts:71-137 | After a run over any records, an officer field holds a placeholder text, of whichever role, if and only if it held it before, or the last record that fills it, or the record that makes the row, has it there and is not gated. |
| `ClubImportRun.OwnPlaceholderIsOld` | src/legacy-import/club-mapper.ts:21-30 | The president field holds the placeholder president, and the secretary field the placeholder secretary, if and only if it did before the run. |
| `ClubImportRun.OtherPlaceholderIsWritten` | src/legacy-import/club-mapper.ts:22-30 | The other role's placeholder does get in: the secretary's, given as the president, is written. |
| `Points.PointsEntries.UpsertComputedEntry` | src/points/points-entries.repository.ts:93-123 | From a table with one entry per key, exactly one entry of the club, rule and period is left; it has the year, category and points that were given and its own id or the new one, and every other row is what it was. |
| `Points.PointsEntries.UpsertJudgedEntry` | src/points/points-entries.repository.ts:158-189 | The same for the judged entry of the club and period that has no source. |
| `Points.PointsEntries.DeleteMany` | src/points/points-entries.repository.ts:125-147 | Removes exactly the entries of the club, rule and period, the computed entries of the club and year whose rule is set and not listed, or the judged entries of the club and period without a source. |
| `Points.UpsertLeavesOne` | src/points/points-entries.repository.ts:93-189 | That is what both upserts leave, told without the functions that compute it. |
| `Points.DeleteRemoves` | src/points/points-entries.repository.ts:125-195 | A delete removes exactly those entries and leaves every other as often as it was there. |
| `Points.StepKeeps` | src/points/points-entries.repository.ts:93-195 | Every upsert and delete keeps at most one entry per key. |
| `Points.RunKeeps` | src/points/points-entries.repository.ts:93-195 | So does every sequence of them. |
| `Points.LookThenWriteIsStep` | src/points/points-entries.repository.ts:167-187 | Undisturbed, the look and the write of an upsert are its one step, whatever other callers have looked for. |
| `Points.RefusedIff` | prisma/migrations/20260905000100_core/migration.sql:1783-1785 | The unique indexes refuse a create exactly when an entry of its key has come in since the look, and never refuse an update, which fails exactly when its row has gone. |
| `Points.WriteBackLeavesOne` | src/points/points-entries.repository.ts:167-187 | A write that is not refused leaves exactly one entry of its key, as given, in the row that was found or in a new one, however long ago the look was. |
| `Points.DeletePhaseRemoves` | src/points/points-entries.repository.ts:125-195 | A delete in between removes the same entries and disturbs no caller. |
| `Points.WriteKeeps` | src/points/points-entries.repository.ts:93-195 | A write, whether it creates, updates or is refused, keeps one entry per key, unique ids, and what every other caller has found. |
| `Points.InterleavingKeeps` | src/points/points-entries.repository.ts:93-195 | However the looks, writes and deletes of any number of callers interleave, the table keeps one entry per key and unique ids. |
| `PointsSummary.ClubPointsDto` | src/points/points.transformer.ts:59-110 | The three accumulating loops compute the summary. |
| `PointsSummary.ForYearIs` | src/points/points-entries.repository.ts:58-65 | The entries of a summary are those of the club and year, each as often as it is in the table. |
| `PointsSummary.MonthKeyIff` | src/points/points.transformer.ts:3 | A period is a month if and only if it is four digits, a hyphen and two digits. |
| `PointsSummary.GroupedIsBreakdown` | src/points/points.transformer.ts:67-87 | Each breakdown has one total per key that occurs, and it is the sum of the entries with that key. |
| `PointsSummary.SummaryAddsUp` | src/points/points.transformer.ts:65-107 | For every list of entries, total is the sum of byCategory, and the sum of byMonth plus the entries of no month. |
| `PointsSummary.MonthIsShownPlusOtherJudged` | src/points/points.transformer.ts:83-94 | A month's total exceeds its listed entries plus the judged one shown by exactly the other judged entries. |
| `PointsSummary.OnePerKeyAddsUp` | src/points/points.transformer.ts:59-110 | In every table with one entry per key the total is the sum of the categories, and of the months plus the entries of no month, and a month is its listed entries plus its judged one. |
| `PointsSummary.RunsAddUp` | src/points/points.transformer.ts:59-110 | After every sequence of upserts and deletes every figure of every club, year and month adds up, and a month is its listed entries plus its judged one. |
| `PointsSummary.InterleavingsAddUp` | src/points/points-entries.repository.ts:93-195 | So it is at every moment of every interleaving of looks, writes and deletes by any number of callers. |

## Left out

- `ZoneMergeLoop.ZoneStore.MergeAliasZonesInTx`: the transaction is one atomic call; the advisory lock, its timeouts and the log are not part of this model. The order of a rewritten `zoneIds` array is not modelled, only its elements and that it has no duplicates.
- `ZoneSeed.SeedZonesFromClubs`: whether the merge transaction was skipped is a parameter, `slugify` is an arbitrary function, ids of created rows are parameters. That a run is successful only if no club lacks a free slug is about tables whose slugs are unique and whose ids are not empty, as the database has them.
- `OutboxProtocol.SentIsFinal`: holds for benign runs only, as described above; errors of reads and backoff delays are not modelled, and a render error counts as a failed attempt without a provider call.
- `OutboxDrain.Outbox.Drain`: assumes that the enqueues of the sweep succeed and no job is lost; those of the dispatcher may fail. A failed job that is still retained blocks its row from being enqueued again; such a row is outside the backlog without jobs. A render error counts as a failed call.
- `CacheCoherence.HitsAreCurrent`: `delByTag` is one step here (`CacheStore.SetBetweenTheTwoCallsLeaks` shows what its two calls allow). A handler reads the database at one instant. Writes are the single-model operations that the extension sees; nested writes, raw SQL and writes in transactions that commit later are not. Redis drops an entry exactly when its time to live is over, and the queued purge does not exhaust its attempts. With `CACHE_INVALIDATION` off no purge is queued; that setting is not modelled.
- `CacheKey.KeyIsInjective`: a query value is the text that `String(value)` gives, so arrays count as their joined text.
- `CacheKey.SortSorts`: letters compare by code point, while JavaScript compares UTF-16 units and so orders letters beyond U+FFFF differently; no other theorem depends on which order it is.
- `CacheStore.CacheService.PurgeAllKeys`: keys added while the scan runs are not modelled.
- `CheckinProtocol.ReplayWindow`: for events that admit anybody at all, and for two requests in flight, or one when a scan takes no longer than the pass is valid.
- `CheckinProtocol.PassIsUsedOnce`: one event; signatures, permissions, club resolution and walk-in names do not matter for the counts and are absent. Redis keeps the replay key for exactly its time to live.
- `CsvRoundTrip.RoundTripIffNoBreaks`: the text of a cell is given, so the date format of the export is not modelled; a header named `__proto__` would not become a column in JavaScript.
- `MemberImport.MembersImports.Preview`: the email pattern is an arbitrary predicate on the normalised address; request size limits, the phone and membership columns and the text of error messages are not modelled.
- `MemberImport.MembersImports.Commit`: a creation fails only at the unique user email; passwords, role grants, notifications and the audit record are not modelled.
- `ResendLimiter.SecondFactorService.AssertResendAllowed`: the map lives in one process, so several processes multiply the limit.
- `Audience.ResolveRoles`: the branch without roles, explicit member ids and the sender's permission check are not modelled.
- `ClubImport.MergeClubFields`: the notes, the list of placeholder clubs and the map of normalised names that is handed to the DRR import are not modelled.
- `ClubImportRun.SecondRunIsNoop`: needs every create of the first run to succeed, and the second run to find each name's row where the first left it.
- `PointsSummary.ClubPointsDto`: the order of rows in the summary is not modelled; points are whole hundredths, so floating-point rounding of the sums is not either.
- `Points.InterleavingKeeps`: each statement is a step of its own; a recompute that runs in a transaction is not rolled back as a whole when one of its writes is refused. Ids are not given out twice.
- `PointsSummary.RunsAddUp`: needs a table whose judged entries carry no source, as all the code that writes them ensures.
- Letter case: `toLowerCase` is modelled for ASCII letters and the Kelvin sign; other scripts are left as they are.
- Plain CRUD services, DTO mappers, templates, HTTP, SMTP, Cloudflare and storage calls: each claim about them is settled by one branch.
- The points engine, the email provider pool, RBAC resolution, report schemas and DRR bookings: they would only add small state machines.
