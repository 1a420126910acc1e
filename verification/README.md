# Trust-cache worker: a verified model

The worker polls one trust service for each configured anchor type and keeps a shared,
expiring key/value cache from which verifiers read trust anchors. A poll carries the
remembered ETag: a 200 replaces the type's whole materialization in one transaction, a
304 pushes every horizon forward, an error writes nothing, so the cache ages towards
fail-closed expiry. This project models that protocol in Dafny and proves what it
guarantees over every run, and then does the same for the worker's status-list prefetch
and its scheduler.

## How the model is built

- `Cache`, `Keys`, `Taxonomy`: the server as a map from keys to values with a deadline,
  MULTI/EXEC as a command list performed at one instant, EXPIRE as a no-op on an expired
  key; the key table and the closed taxonomy.
- `Grouping`, `Materialize`, `Store`, `Syncer`, `Health`: the code's own classes and
  loops. Each store operation is proved to have exactly a stated effect on one type's
  keys (`SwapSpec`, `RefreshSpec`) and none on any other key.
- `Protocol`: one type's sync as atomic steps. The index read, each entry read, EXEC and
  the in-memory record are separate steps, and between any two of them time may pass,
  upstream may publish, or the process may restart. An EXEC may commit, be lost, or
  commit while reporting an error.
- `ProtocolInvariant`, `ProtocolTheorems`, `ProtocolCoverage`, `ProtocolWitnesses`: the
  inductive invariant, the guarantees, how the index loses and regains its hold on the
  live anchor keys, and reachable states showing which hypotheses are needed.
- `SyncerRuns`: the sequential `SyncType` is one of those runs.
- `Worker`: all types over one keyspace; each sees only its own protocol.
- `Flight`, `FlightRefinement`, `FlightProgress`: any number of concurrent `Run` calls
  with the mutex, the in-flight channel and the gap between clearing and closing it.
  Their runs refine the one-cycle-at-a-time worker, so everything proved of one type's
  protocol holds under concurrency, and every call returns under a just scheduler.
- `Failover`, `FailoverTight`: the worker against the clock; the failover budget and its
  exactness.
- `Scheduler`, `StatusRefs`, `PeekTTL`, `Prefetch`: the ticker task, the ranked set with
  negative ranks, int64 durations that wrap and saturate, and the prefetch pass.

Instants are integer nanoseconds on one monotone clock. Upstream is assumed to give one
content per snapshot id, never to reuse an id, to answer 304 only to a non-empty ETag that
is its current one (sections 13.1.2 and 15.4.5 of RFC 9110), and to send a body whose
snapshot id is the ETag. CacheTTL is at least one second; both the `EX` argument and
`EXPIRE` truncate it to whole seconds. An EXEC that commits
does so before the sync that sent it ends, so no write lands after its sender has given
up on it or restarted.

## What turned out otherwise than documented

- Readiness can be true with no anchor stored: the ETag outlives the cache, and a 304
  after the keys expired writes only freshness (`ProtocolWitnesses.ReadyWithNothingStored`).
  `ProtocolTheorems.ReadyMeansStored` says exactly when: the last commit was a refresh
  that found the index dead at EXEC.
- The comment at `internal/valkeystore/store.go:262-265` says a refresh never resurrects a
  key. An entry that expires after it was read and before EXEC is re-created, under no
  index. It outlives the next swap (`ProtocolWitnesses.ResurrectedEntrySurvivesSwap`) and
  stands beside the next refresh, whose keys are all live
  (`ProtocolWitnesses.RefreshBesideResurrected`), so neither serves exactly upstream's
  snapshot. `ProtocolCoverage.CoverageLostIff` says which step does it,
  `ProtocolTheorems.CacheRefinesUpstream` exactly which commits suffer from it, and
  `ProtocolCoverage.CoverageRecovers` when it is over.
- After a 304 the freshness key is never stale while entries keep their flag, so the two
  agree only if no entry was stale (`ProtocolTheorems.StaleFlagsAgreeIff`).
- The comment at `internal/valkeystore/store.go:337` says a non-positive `keep` keeps
  nothing. A negative one drops only the `-keep` lowest ranks
  (`StatusRefs.NonPositiveKeepsNothingIff`).
- A CacheTTL with a fraction of a second, and only such a one, lets readiness outrun the
  store by that fraction (`ProtocolWitnesses.FreshnessOutlivesHorizonIff`).
- "Never returns a negative duration" (`internal/prefetch/ttlpeek.go:15-16`) holds unless a negative default is handed straight back
  (`PeekTTL.NeverNegativeIff`); a `ttl` above 9223372036 seconds wraps.
- With the default settings MinTTL (30 s) is shorter than Interval (1 min), so the
  hypothesis of `Prefetch.SecondPassFetchesNothing` does not hold of them.

## Model

| member | source | states |
|---|---|---|
| ProtocolTheorems.CacheRefinesUpstream | internal/trustsync/sync.go:121-174 | After every schedule of client errors, lost and unacknowledged commits, restarts and expiries, a commit (of a refresh, under a live index) leaves as live anchors exactly upstream's confirmed snapshot, grouped by territory, if and only if every anchor key still live was listed by its index read or is rewritten |
| ProtocolTheorems.SwapServesExactlyIff | internal/valkeystore/store.go:185-237 | A committed swap serves exactly its snapshot if and only if every anchor key still live at EXEC was listed by the index read or is rewritten |
| ProtocolTheorems.RefreshServesExactlyIff | internal/valkeystore/store.go:253-316 | A committed refresh serves exactly the confirmed snapshot if and only if every territory was patched or already served so; under an index live at EXEC, if and only if every live anchor key was listed by the index read |
| ProtocolTheorems.CoveredIsAccounted | internal/valkeystore/store.go:185-189 | A read that listed the live keys then, or an index that lists them at EXEC, is enough for exactness, whatever fell in between |
| ProtocolTheorems.LiveIndexServesIff | internal/valkeystore/store.go:179-184 | At every instant, not only at a commit: while the index lives, the live anchors are exactly the stored snapshot if and only if the index lists them all |
| ProtocolTheorems.ServedCarriesUpstream | internal/trustsync/sync.go:179-209 | Where a snapshot is served exactly, a reader finds no key for a territory without anchors, and elsewhere an entry whose k-th anchor carries certificate bytes, status, validUntil, sequence and use cases of the k-th upstream anchor of that territory |
| ProtocolCoverage.CoverageLostIff | internal/valkeystore/store.go:297-304 | A step makes the index miss a live anchor key exactly when it commits a refresh that writes entries under a dead index |
| ProtocolCoverage.CoverageKept | internal/valkeystore/store.go:253-316 | A run that starts covered and has no such commit is covered throughout |
| ProtocolCoverage.CoverageRecovers | internal/valkeystore/store.go:292-306 | From any state, once the whole-second CacheTTL has passed without such a commit, the index again lists every live anchor key |
| ProtocolTheorems.SwapExactAcrossInterleavings | internal/valkeystore/store.go:185-237 | Whatever falls between index read and EXEC, if the read listed the live keys, or the index does at EXEC, the live anchor keys afterwards are exactly the new entries |
| ProtocolTheorems.RememberedETagIsSafe | internal/trustsync/sync.go:121-174 | The remembered ETag is empty, or names the stored snapshot while its index lives, or upstream has moved past it |
| ProtocolTheorems.CommonDeadline | internal/valkeystore/store.go:208-236 | While the index lives, index, etag, freshness and listed anchors share one deadline, snapshot and horizon; so an index that misses no live anchor key lists exactly the live ones |
| ProtocolTheorems.RefreshMovesOnlyHorizons | internal/valkeystore/store.go:266-308 | A refresh under a live index, of an empty snapshot too, moves every key to one new deadline, leaves index and etag as they are, and changes nothing in a listed entry but its validUntil |
| ProtocolTheorems.RefreshKeepsCoverageIff | internal/valkeystore/store.go:297-304 | A refresh keeps the index covering the live anchors exactly when it does not write entries under a dead index |
| ProtocolTheorems.StaleFlagsAgreeIff | internal/trustsync/sync.go:140-149 | After a 304 the entries' stale flags agree with freshness exactly when no listed entry was stale |
| ProtocolTheorems.AgeBound | internal/trustsync/sync.go:131-166 | With no hypothesis on faults or expiries, an entry whose embedded horizon is ahead was confirmed by a 200 or 304 received less than CacheTTL ago |
| ProtocolTheorems.ConfirmationsHappened | internal/trustsync/sync.go:137-153 | Every recorded confirmation instant is that of an actual 200 or 304 earlier in the run |
| ProtocolTheorems.FailingPollsChangeNothing | internal/trustsync/sync.go:131-166 | Polls that fail without committing move no deadline and no horizon; polls that report failure, even after an unacknowledged commit, which does move the keys, leave the recorded horizon alone; once that has passed the type stays unfresh until a sync is recorded |
| ProtocolTheorems.ReadyMeansStored | internal/trustsync/sync.go:137-166 | While the in-memory horizon is ahead (by more than the dropped fraction of a second) the freshness key is live with at least that horizon, and index, etag and listed anchors are live if and only if the last commit was not a refresh that found the index dead at EXEC |
| ProtocolInvariant.InvAlways | internal/trustsync/sync.go:121-174 | The inductive invariant of one type's store, ETag, freshness and request in hand holds after every schedule |
| ProtocolWitnesses.ReadyWithNothingStored | internal/trustsync/sync.go:140-149 | For every CacheTTL and snapshot there is a run ending with the type freshly recorded and no anchor, nor index, live |
| ProtocolWitnesses.ResurrectedEntrySurvivesSwap | internal/valkeystore/store.go:297-304 | A run in which an entry re-created after its key expired is live beside the empty snapshot the next swap commits |
| ProtocolWitnesses.RefreshBesideResurrected | internal/valkeystore/store.go:297-308 | A run in which a 304 commits with index, etag and freshness live and every territory of its snapshot read alive, and still more than that snapshot is live afterwards |
| ProtocolWitnesses.FractionOutrunsStore | internal/valkeystore/store.go:292-306 | For every CacheTTL that is not whole seconds, a run in which the horizon is ahead and the freshness key is gone |
| ProtocolWitnesses.FreshnessOutlivesHorizonIff | internal/valkeystore/store.go:292-306 | In every state a horizon ahead means a live freshness key, if and only if CacheTTL is a whole number of seconds |
| SyncerRuns.VisitIsARun | internal/trustsync/sync.go:121-174 | Every sequential sync of a type, whatever fails in it, is a run of the step-by-step protocol with the same final keys, ETag and freshness, which takes a Record step exactly when the sync reports success |
| Worker.MoveProjects | internal/trustsync/sync.go:98-109 | Whatever the worker does, each type takes one enabled step of its own protocol or none |
| Worker.WorkerRefinesProtocol | internal/trustsync/sync.go:98-109 | Every state of the whole worker is, for each type, a reachable state of that type's own protocol |
| Worker.WorkerRefinesUpstream | internal/trustsync/sync.go:98-174 | With all types at work over one keyspace, the commit of the type in hand serves exactly its snapshot if and only if its live anchor keys are accounted for |
| Worker.ReadyNeverAheadOfStore | internal/health/state.go:87-104 | Ready at an instant, with whole-second CacheTTL, means every configured type's freshness key is live with at least the in-memory horizon, and its index, etag and listed anchors are live if and only if its last commit was not a refresh that found the index dead |
| Flight.SingleFlight | internal/trustsync/sync.go:68-92 | For any number of callers and any schedule at most one is inside SyncAll, inflight is set exactly while an owner has not cleared it, owners never share a channel, and one about to close it finds it open and its cycle finished |
| Flight.ReturnsMean | internal/trustsync/sync.go:63-92 | A nil return means the cycle that was in flight at arrival, or started then, has finished; an error means the caller was waiting and its own context expired |
| Flight.OneCyclePerOwner | internal/trustsync/sync.go:79-81 | Exactly one channel and cycle is made per owning call; every other call past the test joined one |
| Flight.FlightInvAlways | internal/trustsync/sync.go:68-92 | The invariant of mutex, in-flight channel and call positions, with every awaited channel closed or owed by a live owner, holds after every schedule |
| FlightRefinement.ConcurrentRunsRefineProtocol | internal/trustsync/sync.go:68-92 | Concurrent Run calls give the store one writer at a time: each type is always in a state its one-writer protocol reaches |
| FlightRefinement.ConcurrentRunsServeUpstream | internal/trustsync/sync.go:68-174 | For any callers and schedule, when the call inside SyncAll commits a type (a refresh, under a live index), that type's live anchors are exactly the confirmed snapshot if and only if every live anchor key was listed by the index read or is rewritten |
| FlightProgress.StepsShrink | internal/trustsync/sync.go:68-92 | No step raises a well-founded measure and every step of a call lowers it |
| FlightProgress.NeverStuck | internal/trustsync/sync.go:70-88 | Unless every call has returned or not begun, some call can go on by itself: no deadlock among waiters, mutex and owner |
| FlightProgress.EveryCallSettles | internal/trustsync/sync.go:68-92 | Under every just scheduler there is an instant after which every call has returned or died with its process |
| Failover.NeverLapses | internal/trustsync/config.go:20-25 | With poll period P, cycles of at most D ≤ P, at most m failed visits of a type in a row and (m+1)·P + 2·D under the whole-second CacheTTL, from a type's first success its index, etag, freshness and listed anchors never expire, even in a configuration that names types twice |
| Failover.ServesThroughout | internal/trustsync/config.go:20-25 | Within that budget, from first success on, the live anchors are at every instant exactly the snapshot last committed, if the process started over covered keys or has run for the whole-second CacheTTL |
| Failover.ReadyForGood | internal/health/state.go:87-104 | Within that budget Ready, once true, never turns false |
| Failover.TimedInvAlways | internal/schedule/schedule.go:34-49 | The bound on the next tick in terms of a type's last good poll and its misses, joined ticks included, holds along every run |
| FailoverTight.BudgetIsExact | internal/trustsync/config.go:20-25 | For every configuration, every type it names once and every budget, all runs keep that type's index alive if and only if (m+1)·P + 2·D is under the whole-second CacheTTL |
| FailoverTight.GapIsReached | internal/trustsync/sync.go:68-92 | For every such type and budget a run, with a tick spent joining a resync that had passed the type, in which the gap since the last good poll is the whole (m+1)·P + 2·D |
| Store.Store.SwapAnchorType | internal/valkeystore/store.go:185-237 | Whatever fails, the type's keys end as the swap specification says (vanished territories gone, entries, index, etag, freshness under one deadline, or nothing) and no other key changes |
| Store.Store.RefreshAnchorType | internal/valkeystore/store.go:253-316 | Likewise for the refresh: patched entries set, vanished ones expired in place, freshness set, no other key changed |
| Store.Store.TerritoryIndex | internal/valkeystore/store.go:347-357 | An absent or expired index reads as the empty list, an unreadable one as an error |
| Store.Store.ReadEntries | internal/valkeystore/store.go:266-285 | The reading loop collects exactly the entries found alive, each with the new horizon, and aborts on a failed or unreadable one |
| Store.PatchedOkIff | internal/valkeystore/store.go:267-285 | The reading loop succeeds exactly when no read fails and no entry found live is unreadable |
| Store.PatchedHas | internal/valkeystore/store.go:275-284 | An entry found live on its turn is patched with the new horizon and otherwise as stored |
| Store.PatchedOnly | internal/valkeystore/store.go:267-274 | Nothing is patched but what was found live on one of its turns |
| Store.Store.SetBytes | internal/valkeystore/store.go:144-153 | A lifetime under a second is refused; otherwise the key gets the value and the truncated lifetime unless the request is lost |
| Store.Store.GetTTL | internal/valkeystore/store.go:156-168 | The time left rounded down to milliseconds, none exactly when the key is absent or expired, an error when the request fails |
| Materialize.SwapCommandsEffect | internal/valkeystore/store.go:208-229 | The queued swap, executed in order, leaves each key of the type as the swap says and every other key alone |
| Materialize.RefreshCommandsEffect | internal/valkeystore/store.go:291-308 | The queued refresh, executed in order, has exactly the refresh's effect |
| Materialize.RefreshMeans | internal/valkeystore/store.go:295-306 | A refresh rewrites what was read, moves the deadline of index, etag and every other listed key that lives, leaves a dead key dead and an unlisted one alone |
| Materialize.SwapIgnoresEntryOrder | internal/valkeystore/store.go:191-228 | The store after a swap, encoded index included, is the same for every order of the entries |
| Materialize.IndexIsCanonical | internal/valkeystore/store.go:191-199 | The encoded index depends only on which territories the entries cover |
| Ordering.SortedUnique | internal/valkeystore/store.go:197 | A set of distinct strings has one sorted listing |
| Ordering.BelowMeansPrecedes | internal/valkeystore/store.go:197 | The order is the lexicographic one: a proper prefix first, else the first differing character decides |
| Ordering.SortedAscends | internal/valkeystore/store.go:197 | The index ascends strictly in that order |
| Grouping.GroupByTerritory | internal/trustsync/sync.go:180-195 | The map holds exactly the normalized territories, each with a field-by-field copy of its anchors in upstream order |
| Grouping.EntriesByTerritory | internal/trustsync/sync.go:179-209 | Whatever order the map is walked in, the entries have distinct territories, cover every anchor, carry the snapshot's id, kind, stale flag and instants, and copy their territory's anchors field by field in upstream order |
| Grouping.GroupCopies | internal/trustsync/sync.go:181-195 | A territory's group has as many anchors as normalize to it, the k-th carrying certificate bytes or none, status, validUntil, sequence and use cases of the k-th such upstream anchor |
| Grouping.GroupingPartitions | internal/trustsync/sync.go:179-209 | No entry is empty, each holds its territory's anchors in order, and all entries together hold every upstream anchor exactly as often as upstream sent it |
| Syncer.Syncer.SyncType | internal/trustsync/sync.go:121-174 | An unknown type changes nothing; a known one ends with the keys, ETag and freshness its specification gives, all other types untouched; success means the poll was answered, the commit acknowledged, and the freshness recorded as of the answer's arrival and stored |
| Syncer.SyncSucceedsIff | internal/trustsync/sync.go:128-174 | A sync reports success exactly when the poll was answered, every read went through and the transaction was committed and acknowledged |
| Syncer.SuccessIsRecorded | internal/trustsync/sync.go:137-166 | A success is recorded and stored at the instant the answer arrived, for CacheTTL, under the answer's snapshot, which is also the remembered ETag, with the stale flag of a 200 and none for a 304 |
| Syncer.SuccessStoresAnswer | internal/trustsync/sync.go:152-166 | A successful 200 stores its ETag, the index of exactly the occurring territories in ascending order, and for each an entry faithful to the answer, all under one deadline |
| Syncer.SuccessMovesEntries | internal/valkeystore/store.go:266-301 | A successful 304 rewrites every listed entry it found live with the new horizon and deadline and nothing else changed |
| Syncer.Syncer.SyncAll | internal/trustsync/sync.go:98-109 | An invalid configuration changes nothing; otherwise every type ends as its own job alone leaves it, and no key, ETag or freshness of anything not configured changes |
| Syncer.UncommittedFailureIsInvisible | internal/trustsync/sync.go:120-163 | A sync that fails without committing changes no key, no ETag and no freshness |
| Syncer.CycleIsItsSuccesses | internal/trustsync/sync.go:94-109 | Over distinct types a cycle leaves everything as the successful jobs alone would, in any order |
| Health.State.SetTypeFreshness | internal/health/state.go:39-49 | Records one type's freshness and no other's |
| Health.State.Judge | internal/health/state.go:87-104 | Ready exactly when something is configured and every type's horizon is ahead; otherwise the first offending type and why |
| Health.State.TypeStatuses | internal/health/state.go:67-83 | One row per configured type in order, blank for a type never synced |
| Taxonomy.TaxonomyIsBijective | internal/trustsync/types.go:14-29 | A type has a wire name exactly when that name parses to that type |
| Taxonomy.WireNames | internal/trustsync/types.go:11-29 | The eleven published names, each for its own type, and none for a type outside the taxonomy |
| Taxonomy.WireType | internal/trustsync/types.go:33-40 | The table's name for the type, an error for one it does not list |
| Taxonomy.ParseTypes | internal/trustsync/types.go:44-60 | Accepts exactly the lists of known names, and each answer maps back to its name |
| Keys.KeyPrefixIdempotent | internal/valkeystore/store.go:103-109 | Normalizing a normalized prefix changes nothing |
| Keys.KeyPrefixMeans | internal/valkeystore/store.go:103-109 | White space around a prefix and then colons at its end are cut; nothing left is no prefix, anything else is followed by one colon |
| Keys.WhiteSpace | internal/valkeystore/store.go:104 | White space is the Unicode list, code point by code point |
| Keys.RenderedKeysNeverCollide | README.md:214-224 | For every territory string and prefix, distinct keys of any family render to distinct strings |
| Keys.OpenTaxonomyWouldCollide | README.md:214-216 | A type named "etag" would collide with another type's ETag key; the closed taxonomy excludes it |
| Scheduler.RunsAreOrderly | internal/schedule/schedule.go:34-68 | Runs never overlap, the first needs no tick and each later one takes one, the stop channel is closed at most once and is closed when any Stop has returned |
| Scheduler.TickStartsRun | internal/schedule/schedule.go:39-46 | At the select with a tick buffered and no Stop done, taking the tick is all the loop can do, and a run follows |
| Scheduler.EveryTickRuns | internal/schedule/schedule.go:34-49 | For every n there is a schedule with n ticks taken and n + 1 runs completed |
| Scheduler.FewRunsAfterStop | internal/schedule/schedule.go:37-68 | At most one run begins after a Stop has returned if Ticker.Stop discards a buffered tick, at most two if it does not |
| Scheduler.StopBoundsAreMet | internal/schedule/schedule.go:37-68 | Both bounds are reached |
| Scheduler.StopNeverStuck | internal/schedule/schedule.go:61-68 | While some Stop has begun and not returned, one of them can go on |
| Scheduler.StoppedLoopEnds | internal/schedule/schedule.go:39-46 | A stopped loop is gone or can step, and each of its steps lowers a measure |
| StatusRefs.RankedSet.TrimStatusRefs | internal/valkeystore/store.go:338-344 | The set becomes what ZREMRANGEBYRANK 0 (-keep - 1) leaves, for keep ≥ 0 its newest keep members, or stays when the request fails |
| StatusRefs.RankedSet.TopStatusRefs | internal/valkeystore/store.go:320-330 | The min(n, len) highest ranks, highest first; none for n ≤ 0; an error when the request fails |
| StatusRefs.NewestIs | internal/valkeystore/store.go:320-330 | As many references as asked for, or as there are, from the highest rank down |
| StatusRefs.TrimRemovesLowest | internal/valkeystore/store.go:332-344 | For keep ≥ 0 exactly the max(0, len - keep) lowest ranks go; for a negative keep the -keep lowest go |
| StatusRefs.NonPositiveKeepsNothingIff | internal/valkeystore/store.go:337-339 | A non-positive keep empties the set exactly when it is 0 or the set has at most -keep members |
| StatusRefs.TrimThenTop | internal/valkeystore/store.go:320-344 | Top-n after a trim is top-min(n, keep) before it |
| PeekTTL.Peek | internal/prefetch/ttlpeek.go:17-58 | The lifetime the shown claims give; for any token of three dot-free parts, that of the claims decoded from the middle one, whatever the others are; never negative for a non-negative default |
| PeekTTL.ThreeParts | internal/prefetch/ttlpeek.go:18-23 | Three dot-free parts joined by dots are split into those three |
| PeekTTL.ShownIsTheBody | internal/prefetch/ttlpeek.go:18-33 | Such a token shows exactly the claims decoded from its middle part |
| PeekTTL.ShownHasThreeParts | internal/prefetch/ttlpeek.go:18-33 | Only a token of that form shows any claims |
| PeekTTL.ClaimsMean | internal/prefetch/ttlpeek.go:37-57 | Every case at once: a positive ttl counts modulo 2^64, exp counts as the saturated time to it or as past beyond the clock, the smaller claim wins, and zero is the floor |
| PeekTTL.DefaultTaken | internal/prefetch/ttlpeek.go:34-37 | A token that shows neither claim takes the default as it is; a non-positive ttl alone takes it floored at zero |
| PeekTTL.NeverNegativeIff | internal/prefetch/ttlpeek.go:17-58 | The value is negative only when a negative default is returned for a token that shows neither claim |
| PeekTTL.ExpCaps | internal/prefetch/ttlpeek.go:42-57 | With exp (section 4.1.4 of RFC 7519) the value is at most max(0, exp - now), for every ttl, exp and clock, wrapped or not |
| PeekTTL.TtlAloneExactIff | internal/prefetch/ttlpeek.go:38-41 | ttl alone is honoured exactly when it is at most 9223372036 seconds |
| PeekTTL.BothExactIff | internal/prefetch/ttlpeek.go:38-57 | For such a ttl with exp the value is max(0, min(ttl, exp - now)) exactly when exp does not wrap the clock |
| PeekTTL.ExpAloneExactIff | internal/prefetch/ttlpeek.go:42-57 | exp alone gives max(0, exp - now) exactly when it neither wraps the clock nor exceeds a duration |
| PeekTTL.HorizonCapped | internal/prefetch/prefetch.go:89-112 | The requested horizon reaches at most max(exp, now + MinTTL) |
| PeekTTL.PartsRejoin | internal/prefetch/ttlpeek.go:18-21 | Splitting at dots loses nothing and leaves no dot in a piece |
| Prefetch.Prefetcher.Run | internal/prefetch/prefetch.go:60-102 | Non-positive TopN or a failed listing changes nothing; otherwise the store ends as the pass over the newest TopN leaves it, hits + refreshed + errors grow by the number of URIs, and the references are trimmed unless that fails |
| Prefetch.EveryURIIsCounted | internal/prefetch/prefetch.go:68-97 | For any pattern of failures every URI is exactly one of hit, refreshed, error |
| Prefetch.VisitDecides | internal/prefetch/prefetch.go:69-96 | A turn is a hit exactly when the time to live was read and exceeds Interval, a refresh exactly when it was read, does not, and fetch and write went through with a second or more to live, an error otherwise |
| Prefetch.CountersCount | internal/prefetch/prefetch.go:71-96 | Each counter is the number of URIs decided its way |
| Prefetch.EachURIOnItsOwn | internal/prefetch/prefetch.go:68-97 | URIs with keys of their own are each treated on their own turn as if they were the whole pass |
| Prefetch.LifetimeMeans | internal/prefetch/prefetch.go:89-112 | The lifetime asked for is the default for a silent token, else its ttl capped by its exp, or its exp alone, clamped to MinTTL and MaxTTL |
| Prefetch.OnlyListedKeysChange | internal/prefetch/prefetch.go:68-97 | Every key is as it was, or belongs to a listed URI and holds a body fetched this pass under a lifetime within MinTTL and MaxTTL |
| Prefetch.CachedWithinExp | internal/prefetch/prefetch.go:89-90 | A rewritten key outlives its token's exp only as far as MinTTL forces it |
| Prefetch.SecondPassFetchesNothing | internal/prefetch/prefetch.go:60-102 | If nothing fails, the clock stands and whole-second MinTTL exceeds Interval, the next pass over the trimmed references only hits and leaves the store untouched |
| Prefetch.TrimKeepsNextList | internal/prefetch/prefetch.go:24-98 | The pass's own trim leaves at most 1000 references and never changes the next list while TopN is at most 1000 |

## Left out

- HTTP transport, DPoP and authentication, URL and connection options, routes, CLI, configuration binding: input and output around the protocol; only the configuration's inequalities appear, as hypotheses.
- JSON, base64 and SHA-256: cached values are datatypes, payload decoding and the status-list hash are arbitrary functions; a stored value of the wrong shape is what an undecodable one reads as.
- The trust client and the key helpers of go-eudi-trust and go-verifier-helpers are not part of this model: territory normalization is an arbitrary function, key shapes and wire names follow the README's table and the type names.
- Stored keys are structured values rather than prefixed strings; `Keys.RenderedKeysNeverCollide` shows the rendering loses nothing.
- Metrics, logging, correlation ids, the snapshot telemetry poll and its one key's contents: little state and no property beyond the obvious.
- More than one worker process, Redis Cluster, eviction and flushes: outside the documented single-writer, single-node contract.
- A CacheTTL under one second: the server would refuse it, and no write of the type would ever succeed.
- Concurrency in Flight is a state machine over the statements of Run, not a Dafny method: Dafny methods are sequential. A panic inside SyncAll is not modelled.
- The two locks that guard single reads and writes of the ETag map and of the freshness map are atomic steps.
- The ranks of the reference set are given in order; how scores and ties produce them is the server's. Ranks are unbounded integers, so keep is not wrapped at the ends of int64.
- Failover.NeverLapses: the scheduled call is made exactly at its tick and upstream answers within the cycle's span; restarts are excluded, because a restart forgets what is known and readiness starts over.
- FailoverTight.BudgetIsExact: a type the configuration names more than once is left to the sufficient direction, Failover.NeverLapses, because its misses are counted visit by visit and a failing cycle then spends several.
- FlightProgress.EveryCallSettles: assumes that requests to the client and the store eventually answer, which the contexts' deadlines ensure.
