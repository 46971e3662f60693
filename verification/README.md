# ThinkPixelTG: a verified model of the tool gateway

ThinkPixelTG is a tool gateway: it accepts tool calls from agents, acquires each logical
invocation exactly once, has it authorized, hands out short-lived credentials, runs a connector
and publishes evidence. This project models the parts of it that must stay safe under
concurrency, crashes and replays, and the parsers and orders it relies on, and proves what they
guarantee in Dafny.

The model follows the gateway's own structure.

- **Idempotent execution** (`Acquisition`, `ToolCalls`): the idempotency record and the
  invocation it points to, one step per transaction, and whole runs of tool calls over them.
- **Fenced attempts** (`Attempts`) and **the outbox** (`Outbox`, `OutboxRuns`): lease tables with
  fencing tokens, under the callers' clocks, with crashes after any step.
- **The credential cache** (`CredentialCache`, `CredentialCacheRuns`) and **capabilities**
  (`Capabilities`): single-flight loading, least-recently-used eviction, expiry, provider epochs,
  and who owns each secret.
- **The decision cache** (`Authorization`, `Freshness`, `FreshnessRuns`) and **narrowing**
  (`Narrowing`).
- **JSON** (`CanonicalJson`, `JsonDocuments`, `Surrogates`), **schema inspection and caching**
  (`SchemaInspection`, `SchemaCache`), **JSON Pointer** (`JsonPointer`), **semantic versions**
  (`SemanticVersions`), **paging** (`ToolDiscovery`), **hash preimages** (`Preimages`).
- **The invocation lifecycle** (`InvocationState`).

`Text`, `Bags` and `Splitting` hold shared byte-string, multiset and splitting facts.

A protocol is a value-level state with one function per lock section, transaction or statement.
`Step` lists everything that can happen, `Next` is total (a step that cannot happen changes
nothing), and `Run` folds any sequence of steps from the empty state, so a lemma about
`Run(steps)` is about every interleaving. Where the source updates state in place there is a
class with the same fields whose methods, loops included, are proved equal to those functions.

Conventions: a Go string is a Dafny `string` whose characters are bytes; a SHA-256 digest is
identified with its preimage; times are integer nanoseconds and 0 is the zero time. Clocks, random
numbers, the live authorizer, the credential provider, the sink, the schema compiler, binary64
conversion and the choice of row locks are parameters of the steps.

## Model

| member | source | states |
|---|---|---|
| Acquisition.LogicalInvocationAcquirer.TryAcquire | internal/adapters/postgres/invocation_acquisition.go:107-172 | the transaction's new tables and answer are those of the specification, error and refusal paths leave both tables alone, and the claim is linked to the invocation created with it |
| Acquisition.LogicalInvocationAcquirer.ClassifyExisting | internal/adapters/postgres/invocation_acquisition.go:174-217 | what is read back after a refused upsert is answered as conflict, replay, exhausted or pending as specified |
| Acquisition.LogicalInvocationAcquirer.MarkComplete | internal/adapters/postgres/invocation_acquisition.go:37-62 | the completing statement changes one claimed record of that owner to completed with the given replay, or nothing |
| Acquisition.AcquireKeeps | internal/adapters/postgres/invocation_acquisition.go:118-172 | acquiring keeps every record tied to a durable invocation of its own slot and fingerprint within its recovery bound, and never loses or rewrites what an earlier record fixed |
| Acquisition.CompleteKeeps | internal/adapters/postgres/invocation_acquisition.go:49-62 | completing keeps the same invariant, and a completed record never changes again |
| Acquisition.ChangeStateKeeps | internal/adapters/postgres/invocation_acquisition.go:174-199 | lifecycle changes of the invocation row keep what replays and conflicts are judged by |
| Acquisition.AnswerIsExact | internal/adapters/postgres/invocation_acquisition.go:127-134 | on an existing record conflict, replay, recovery, exhaustion and pending are each answered if and only if the matching condition of the upsert holds or fails, always with the original invocation |
| Acquisition.GrantHoldsForItsLease | internal/adapters/postgres/invocation_acquisition.go:118-134 | a granted claim is its requester's for exactly the lease asked for: the same work asked for again is pending before now + lease, and from then on is recovered while recoveries are left and exhausted when they are not |
| Acquisition.FirstRequestIsOwned | internal/adapters/postgres/invocation_acquisition.go:118-167 | a request for a free slot under an unused invocation ID is owned, and the two rows it leaves are written out in full |
| ToolCalls.RunKeeps | internal/app/tool_calls.go:140-182 | in every reachable state each grant for a tool call is held by one call, was spent on one execution, or was abandoned |
| ToolCalls.RunExtends | internal/adapters/postgres/invocation_acquisition.go:118-172 | no continuation of a run loses a record, its fingerprint, its invocation or its recovery bound |
| ToolCalls.ExecutionsAreBounded | internal/app/tool_calls.go:140-182 | over any interleaving of calls, expiries and recoveries the connector executes for one tool call at most 1 + max_recoveries times, at most eleven |
| ToolCalls.BoundIsReached | internal/app/tool_calls.go:140-182 | for every max_recoveries from 0 to 10 some run executes exactly 1 + max_recoveries times |
| ToolCalls.FirstRequestFixesTheBound | internal/adapters/postgres/invocation_ledger.go:36-53 | that bound, the fingerprint and the whole invocation row but its state are those of the request that created the record, whatever follows; the row starts validated |
| ToolCalls.FreeSlotIsOwned | internal/app/tool_calls.go:134-152 | in every run a valid call for a free slot under an unused ID is acquired by its caller |
| ToolCalls.GrantedLeaseHolds | internal/adapters/postgres/invocation_acquisition.go:118-134 | whatever runs after a grant, as long as the record is neither recovered nor completed the same work is pending up to now + lease and no longer |
| ToolCalls.DecisionIsRecorded | internal/adapters/postgres/invocation_ledger.go:55-88 | in every run the decision of an acquired call is stored under its invocation and ID, a second one under that ID is refused, and the call goes on if and only if its decision was stored and allows |
| ToolCalls.ExecutionsAgree | internal/app/tool_calls.go:150-182 | all executions for one tool call carry the same invocation, tool version and canonical arguments, each with a recorded allow decision |
| ToolCalls.ExecutionFollowsDecision | internal/app/tool_calls.go:154-182 | when the connector is called its allow decision is already recorded, and the call is spent |
| ToolCalls.AnswersAgree | internal/adapters/postgres/invocation_acquisition.go:168-217 | after the first request every grant, pending, replay or exhausted answer names its invocation, and a request conflicts if and only if tool, version or arguments differ |
| ToolCalls.CompletionIsFinal | internal/adapters/postgres/invocation_acquisition.go:35-62 | at most one completion ever succeeds; every later request with the record's fingerprint replays exactly its payload and every other one conflicts |
| ToolCalls.CompletionGoesByName | internal/adapters/postgres/invocation_acquisition.go:45-52 | a completion succeeds if and only if it is valid, the table admits its clock and payload, the record is claimed and its last grant went to that owner name, expired lease or not |
| Preimages.LogicalRequestDigestDetermines | internal/adapters/postgres/invocation_acquisition.go:219-230 | equal request digests mean equal tool, version and argument digest |
| Preimages.LengthPrefixedInjective | internal/credentials/cache.go:320-327 | eight-byte length prefixes make a list of parts recoverable from what is hashed |
| Preimages.ColonPrefixedInjective | internal/adapters/http/tool_discovery.go:294-298 | decimal length and colon do the same |
| Preimages.DiscoveryBindingDetermines | internal/adapters/http/tool_discovery.go:292-300 | a cursor binding determines the whole caller identity and the page size |
| Attempts.AttemptClaimer.Latest | internal/adapters/postgres/attempt_claiming.go:95-102 | the scan finds the highest attempt number, or that there is none |
| Attempts.AttemptClaimer.TryClaim | internal/adapters/postgres/attempt_claiming.go:72-133 | a claim is refused (evidence that is no object included), ineligible, busy or inserted exactly as specified, numbered after the latest attempt |
| Attempts.AttemptClaimer.IsCurrent | internal/adapters/postgres/attempt_claiming.go:135-153 | an error exactly on invalid fields; a yes means the latest attempt, its fence equal to its number, leased to this owner past the clock; and, from the attempt's start on, it is exactly then that the same worker could finalize |
| Attempts.AttemptClaimer.TryFinalize | internal/adapters/postgres/attempt_claiming.go:156-182 | an outcome is written only for the current attempt and with every field check met, and then exactly as FinalizeWrites below says |
| Attempts.ClaimAnswers | internal/adapters/postgres/attempt_claiming.go:72-110 | a claim is refused exactly on invalid fields, ineligible exactly when the invocation is not ready, busy exactly while the latest attempt's lease runs, and otherwise granted with the next number |
| Attempts.ClaimStores | internal/adapters/postgres/attempt_claiming.go:111-131 | a granted claim adds one attempt, unfinished, leased to the owner from now until now + lease, with the evidence given or the empty object, and changes no other |
| Attempts.FinalizeWrites | internal/adapters/postgres/attempt_claiming.go:156-182 | finalizing writes exactly the outcome, ambiguity, time and evidence given and clears the lease; an unknown outcome carries an ambiguity; a refusal changes nothing |
| Attempts.OutcomeStands | internal/adapters/postgres/attempt_claiming.go:156-182 | the outcome and evidence that were finalized are those of the attempt after any continuation |
| Attempts.ClaimKeepsNumbered | internal/adapters/postgres/attempt_claiming.go:111-126 | attempts stay numbered 1 to n with fence equal to number |
| Attempts.FinalizeKeepsNumbered | internal/adapters/postgres/attempt_claiming.go:164-171 | finalizing keeps that numbering |
| Attempts.OlderAttemptsAreFrozen | internal/adapters/postgres/attempt_claiming.go:83-182 | under arbitrary clocks no attempt is lost, and one that is finished or has a successor never changes again |
| Attempts.FinalizedOnce | internal/adapters/postgres/attempt_claiming.go:156-182 | an attempt is finalized at most once in any run |
| Attempts.OvertakenIsNeverCurrent | internal/adapters/postgres/attempt_claiming.go:135-153 | an attempt with a successor is never current again, for any owner and clock |
| Attempts.OneIsCurrent | internal/adapters/postgres/attempt_claiming.go:141-147 | at one instant at most one attempt, fence and owner is current, and it is the latest |
| Attempts.ClaimKeepsNoOverlapIff | internal/adapters/postgres/attempt_claiming.go:103-126 | a granted claim keeps unfinished leases from sharing an instant if and only if the lease it asks for lies wholly after or wholly before every unfinished one, of which the code looks at the latest only |
| Attempts.NeverOverlapsIff | internal/adapters/postgres/attempt_claiming.go:83-133 | under arbitrary clocks, no point of a run has overlapping leases if and only if every claim it granted was clear in that sense |
| Attempts.ClaimKeepsOrderIff | internal/adapters/postgres/attempt_claiming.go:103-126 | a granted claim keeps unfinished leases in attempt order if and only if its clock is past every one of them |
| Attempts.RunKeepsTime | internal/adapters/postgres/attempt_claiming.go:83-133 | with claim clocks that never go back, leases of unfinished attempts stay disjoint and in order |
| Attempts.NoTwoLiveLeases | internal/adapters/postgres/attempt_claiming.go:83-133 | then no instant lies within the leases of two unfinished attempts |
| Attempts.ClockRunningBack | internal/adapters/postgres/attempt_claiming.go:103-106 | a run with a clock that goes back in which two unfinished leases cover one instant |
| Outbox.FindFirst | internal/adapters/postgres/outbox_publisher.go:146-150 | the claim query picks the least unlocked, ready message by availability, tenant and ID, and nothing only if there is none |
| Outbox.ReadyIff | internal/adapters/postgres/outbox_publisher.go:148-149 | a message is ready exactly when it is unsettled, available, and unclaimed or past its lease |
| Outbox.OrderIsLexicographic | internal/adapters/postgres/outbox_publisher.go:150-150 | the order of the claim query is lexicographic in availability, tenant and ID |
| Outbox.OutboxTable.ClaimOne | internal/adapters/postgres/outbox_publisher.go:143-167 | claiming changes exactly that row and returns the ticket that matches it |
| Outbox.ClaimHoldsForItsLease | internal/adapters/postgres/outbox_publisher.go:146-155 | a claimed message counts one attempt more, is its owner's, and is ready again exactly from now + lease on |
| Outbox.OutboxTable.Update | internal/adapters/postgres/outbox_publisher.go:169-201 | trying the WHERE clause on every row and counting the affected ones settles the ticket's own unsettled row or nothing |
| Outbox.OutboxTable.Conclude | internal/adapters/postgres/outbox_publisher.go:108-135 | the sink's answer is turned into the update it asks for, branch by branch |
| Outbox.AnswerDecides | internal/adapters/postgres/outbox_publisher.go:108-135 | a message is published under the sink's own reference if that is not blank; it is dead-lettered if and only if the failure is permanent or poison, a blank reference included, or its attempts are used up; otherwise it waits until now + delay; no other row changes |
| Outbox.SettlementIsExact | internal/adapters/postgres/outbox_publisher.go:169-189 | no other row changes and no count; the claim is given up, and the message is settled or waits for the retry time |
| Outbox.Backoff | internal/adapters/postgres/outbox_publisher.go:203-214 | the loop computes min(base * 2^(attempt-1), max) for every attempt with every intermediate value inside 64 bits |
| Outbox.BackoffNeverShrinks | internal/adapters/postgres/outbox_publisher.go:203-214 | the delay never shrinks from one attempt to the next and never exceeds the maximum |
| Outbox.JitterStaysInBand | internal/adapters/postgres/outbox_publisher.go:215-216 | over the reals the jittered delay stays within a factor 1 ± jitter |
| Outbox.JitterIsEven | internal/adapters/postgres/outbox_publisher.go:215-216 | the jitter runs linearly from the lower to the upper end of that band |
| OutboxRuns.RunKeeps | internal/adapters/postgres/outbox_publisher.go:97-201 | in every reachable state of many publishers with crashes, rows are consistent, tickets are unique per attempt, and what counts as accepted was accepted |
| OutboxRuns.EnqueueStores | internal/adapters/postgres/migrations/sql/00005_evidence_replay_outbox.sql:109-132 | in every run a new identity becomes one unclaimed, unsettled row with its own times, and a known one changes nothing |
| OutboxRuns.ClaimTakesTheFirst | internal/adapters/postgres/outbox_publisher.go:143-167 | in every run a claim takes effect only on the first unlocked ready message, and leaves exactly the lease and the ticket written out |
| OutboxRuns.AnswerIsFollowed | internal/adapters/postgres/outbox_publisher.go:108-135 | in every run a publisher that still owns its message settles it as the sink's answer says: published under that reference, dead, or available again at now + delay |
| OutboxRuns.SettledForGood | internal/adapters/postgres/outbox_publisher.go:169-189 | a message ends published or dead-lettered, never both, and its row never changes again |
| OutboxRuns.PublishedWasAccepted | internal/adapters/postgres/outbox_publisher.go:108-119 | a published message was acknowledged by the sink in an earlier step for that same identity, under the reference it is published with, which is not blank |
| OutboxRuns.OnlyTheLatestSettles | internal/adapters/postgres/outbox_publisher.go:169-201 | whoever settles or reschedules a message holds its latest attempt number, and every other ticket for it is older |
| OutboxRuns.ClaimsWait | internal/adapters/postgres/outbox_publisher.go:146-150 | until it is rescheduled again a message is claimed only by clocks past its availability and past the lease of any open claim |
| OutboxRuns.AttemptsAreAccountedFor | internal/adapters/postgres/outbox_publisher.go:151-154 | attempt_count is the reschedules, plus the claims lost to a successor, plus the one that is open or settled the message |
| OutboxRuns.ReschedulesAreBounded | internal/adapters/postgres/outbox_publisher.go:121-134 | a message is rescheduled at most MaxAttempts - 1 times, and attempt_count exceeds MaxAttempts by no more than the lost claims |
| OutboxRuns.SpentStayHeld | internal/adapters/postgres/outbox_publisher.go:121-134 | in every run an unsettled message that has used up its attempts is still claimed |
| OutboxRuns.ClaimExceedsIff | internal/adapters/postgres/outbox_publisher.go:146-151 | a claim takes attempt_count past MaxAttempts if and only if it takes over a claim left open on a message that has used up its attempts |
| OutboxRuns.CrashesOutrunMaxAttempts | internal/adapters/postgres/outbox_publisher.go:122-122 | a run with a crash in which that happens |
| CredentialCache.HashedKeyFaithful | internal/credentials/cache.go:302-327 | what is hashed for a cache key determines the fixed fields and the concatenated lists, and only those |
| CredentialCache.ListBoundaryIsNotHashed | internal/credentials/cache.go:308-314 | two different bindings share a key: moving the last audience to the front of the resources goes unnoticed |
| CredentialCache.CacheKeyDeterminesLists | internal/credentials/cache.go:302-318 | for lists of equal lengths, equal keys mean equal binding, context and epoch |
| CredentialCache.Expiry | internal/credentials/cache.go:154-165 | an entry expires exactly at the earliest of the capability's expiry minus either skew and loading plus either TTL |
| CredentialCache.ProviderCache.Prepare | internal/credentials/cache.go:142-170 | the checks on what a provider returned and the computed expiry give the entry to store, or none |
| CredentialCache.Sweep | internal/credentials/cache.go:244-260 | a sweep releases exactly the selected entries, once each, in whatever order the map is visited |
| CredentialCache.FilterMeans | internal/credentials/cache.go:172-260 | which entries each of the five evictions is for |
| CredentialCache.EvictLeaves | internal/credentials/cache.go:244-260 | an eviction leaves exactly the entries its filter does not hit, as they were |
| CredentialCache.RunEvictionLeaves | internal/credentials/cache.go:186-198 | evicting a run leaves exactly the entries of other tenants and other runs, as they were |
| CredentialCache.BindingEvictionLeaves | internal/credentials/cache.go:172-184 | evicting a binding leaves exactly the entries of other tenants and other bindings, as they were |
| CredentialCache.ProviderEvictionLeaves | internal/credentials/cache.go:200-220 | evicting a provider leaves exactly the entries of other providers, as they were |
| CredentialCache.PurgeLeaves | internal/credentials/cache.go:244-260 | the purge before a lookup leaves exactly the unexpired entries that the binding's revocation epoch does not overtake |
| CredentialCache.HitIsStored | internal/credentials/cache.go:72-94 | a hit is on the stored entry of the caller's own key under the current epoch |
| CredentialCache.DropLeaves | internal/credentials/cache.go:276-283 | dropping an entry gives its source back once and touches nothing else |
| CredentialCache.FindOldest | internal/credentials/cache.go:264-270 | the inner scan finds an entry of least recent use |
| CredentialCache.EvictLRU | internal/credentials/cache.go:262-274 | eviction releases exactly the surplus, once each |
| CredentialCache.SurplusIsLRU | internal/credentials/cache.go:262-274 | every evicted entry was used before every kept one |
| CredentialCache.SurplusSize | internal/credentials/cache.go:263-263 | what eviction leaves fits the bound |
| CredentialCache.LookupKeepsValid | internal/credentials/cache.go:72-106 | lookup, touch and reservation keep the table within bounds, its use stamps distinct and behind the counter, and a closed cache empty |
| CredentialCache.PublishKeepsValid | internal/credentials/cache.go:113-126 | so does publishing, which stores the entry exactly when it loaded, the cache is open and the epoch is unchanged, and the stored entry survives its own eviction |
| CredentialCache.EvictKeepsValid | internal/credentials/cache.go:172-198 | evictions keep the table valid |
| CredentialCache.SetEpochKeepsValid | internal/credentials/cache.go:200-220 | an epoch change keeps the table valid |
| CredentialCache.ProviderCache.constructor | internal/credentials/cache.go:55-61 | a new cache is empty and open |
| CredentialCache.ProviderCache.LookupOrReserve | internal/credentials/cache.go:73-106 | the first lock section of Resolve in place: purge, then hit, wait or reserve |
| CredentialCache.ProviderCache.FinishLoad | internal/credentials/cache.go:113-126 | the second lock section in place: free the reservation, then store and evict, or release |
| CredentialCache.ProviderCache.RemoveEntry | internal/credentials/cache.go:276-283 | removes and releases the entry only if it still holds that source |
| CredentialCache.ProviderCache.EvictBinding | internal/credentials/cache.go:172-184 | releases exactly the entries of a tenant's binding |
| CredentialCache.ProviderCache.EvictRun | internal/credentials/cache.go:186-198 | releases exactly the entries of a tenant's run |
| CredentialCache.ProviderCache.SetProviderEpoch | internal/credentials/cache.go:200-220 | a changed epoch releases exactly the provider's entries; invalid names, the same epoch and a closed cache change nothing |
| CredentialCache.ProviderCache.Close | internal/credentials/cache.go:231-242 | closes and releases everything in the table |
| CredentialCacheRuns.RunKeeps | internal/credentials/cache.go:63-140 | the conservation, single-flight and load invariants hold in every interleaving of lookups, loads, publications, evictions, epoch changes and Close |
| CredentialCacheRuns.EverySourceHasOneOwner | internal/credentials/cache.go:110-138 | each source the provider returned is with its loader, in exactly one entry, or released exactly once |
| CredentialCacheRuns.OneLoadPerKey | internal/credentials/cache.go:95-106 | a key being loaded has no entry, so publishing never overwrites, and no two loaders work on one key |
| CredentialCacheRuns.TableStaysInBounds | internal/credentials/cache.go:113-126 | never more than maxEntries entries, use stamps all different, every entry under its provider's current epoch |
| CredentialCacheRuns.EvictedRunIsGone | internal/credentials/cache.go:186-198 | in every run, right after a run is evicted no lookup of that tenant and run hits, and every entry of another tenant or run is what it was |
| CredentialCacheRuns.EvictedBindingIsGone | internal/credentials/cache.go:172-184 | the same for a binding |
| CredentialCacheRuns.ChangedEpochIsGone | internal/credentials/cache.go:200-220 | in every run, right after a provider's epoch changes no lookup of that provider hits, and the epochs and entries of the others are what they were |
| CredentialCacheRuns.UncloneableIsGone | internal/credentials/cache.go:83-93 | in every run, a hit whose copy fails gives its source back once and is not served again, and no other entry changes |
| CredentialCacheRuns.ServedIsSound | internal/credentials/cache.go:79-94 | a hit was loaded under the same key, context and still current epoch, matches the binding's kind, reference and revocation epoch, is unreleased, is served strictly before expiry minus the larger skew and load time plus the smaller TTL, and becomes the most recently used |
| CredentialCacheRuns.ServedBindingIff | internal/credentials/cache.go:302-318 | the binding a hit was loaded for is the requested one if and only if their lists have the same lengths, and then the capability matches it in every list too |
| CredentialCacheRuns.LoadsWereRequested | internal/credentials/cache.go:104-111 | whatever is loaded, or being loaded, was asked for by an earlier call with that binding and context |
| CredentialCacheRuns.SameShapeIsServedFaithfully | internal/credentials/cache.go:302-318 | if all earlier calls for a tenant's binding and context had lists of the same lengths, every hit was loaded for exactly the binding asked for and matches it |
| CredentialCacheRuns.EntryIsServed | internal/credentials/cache.go:79-94 | conversely, an unexpired entry of the caller's key and revocation epoch is a hit |
| CredentialCacheRuns.StoredIsServed | internal/credentials/cache.go:79-94 | a stored first load is served to every binding with its key |
| CredentialCacheRuns.HitWithOtherAudiences | internal/credentials/cache.go:308-314 | a run whose hit serves a capability with audiences that were not requested |
| CredentialCacheRuns.ClosedStays | internal/credentials/cache.go:231-242 | a closed cache stays closed |
| CredentialCacheRuns.CloseReleasesEverything | internal/credentials/cache.go:231-242 | after Close the table stays empty and once loads drain every source has been released exactly once |
| CredentialCacheRuns.EvictionMissesLoadsInFlight | internal/credentials/cache.go:172-198 | in every run, after evicting any binding or run an answered load is stored if and only if it was ready to be stored before |
| CredentialCacheRuns.EpochThatReturns | internal/credentials/cache.go:117-117 | in every run, an answered load is refused after an epoch change but stored once the epoch is set back |
| CredentialCacheRuns.LoadGetsReady | internal/credentials/cache.go:104-111 | a first load answered with matching, lasting metadata is ready to be stored under the key it reserved |
| CredentialCacheRuns.LimitsAreReached | internal/credentials/cache.go:104-117 | a run reaches the situation of the two limits above |
| Capabilities.ValidateSet | internal/credentials/capability.go:119-134 | accepts exactly the bounded lists of safe, distinct values |
| Capabilities.ValidateMetadata | internal/credentials/capability.go:92-117 | accepts exactly the valid metadata |
| Capabilities.Zero | internal/credentials/capability.go:149-154 | overwrites every byte in place |
| Capabilities.NewCapability | internal/credentials/capability.go:33-41 | succeeds exactly on valid metadata and 1 to 65536 bytes, and shares no storage with the caller |
| Capabilities.Capability.Release | internal/credentials/capability.go:71-83 | erases the owned bytes where they lie, forgets lease and refresh IDs, and is final |
| Capabilities.Capability.UseSecret | internal/credentials/capability.go:52-69 | the callback runs exactly when unreleased and unexpired, on the secret's bytes in a buffer of its own that is erased afterwards |
| Capabilities.Clone | internal/credentials/cache.go:285-300 | a clone has the same metadata and bytes in storage of its own and leaves the source alone |
| Capabilities.ReleaseLeavesClone | internal/credentials/capability.go:71-83 | releasing either of source and clone leaves the other's bytes whole |
| Authorization.ValidSet | internal/ports/authorization.go:153-162 | comparing neighbours accepts exactly the valid, strictly sorted lists |
| Authorization.ValidAuthorizationText | internal/ports/authorization.go:149-151 | accepts exactly non-empty texts of at most 512 bytes without space at either end |
| Authorization.ValidateConstraints | internal/ports/authorization.go:136-147 | accepts exactly the valid constraints, whatever the visiting order of the argument map |
| Authorization.ValidateRequest | internal/ports/authorization.go:79-96 | accepts exactly the valid requests |
| Authorization.KnownReason | internal/ports/authorization.go:125-134 | accepts exactly the twelve reasons |
| Authorization.ValidateDecision | internal/ports/authorization.go:98-123 | accepts exactly the decisions that are valid for the request |
| Text.ValidTextIff | internal/ports/authorization.go:149-151 | having no space at either end is being equal to its trimmed self |
| Text.SafeText | internal/credentials/cache.go:333-335 | accepts exactly valid text without NUL, CR or LF |
| Narrowing.NarrowSet | internal/app/authorization_constraints.go:66-84 | both loops together compute the order-preserving intersection or its error |
| Narrowing.NarrowArguments | internal/app/authorization_constraints.go:48-60 | the map loop computes the pointwise minimum, or fails on an unknown name, in any visiting order |
| Narrowing.NarrowAuthorizationConstraints | internal/app/authorization_constraints.go:24-64 | the whole operation with every error path |
| Narrowing.NarrowedSetIsIntersection | internal/app/authorization_constraints.go:66-84 | members are exactly those allowed by both, sorted stays sorted, failure exactly when both are non-empty and disjoint |
| Narrowing.FailsClosedIff | internal/app/authorization_constraints.go:80-82 | the documented failing closed on an empty intersection holds for all restrictions if and only if the ceiling is non-empty |
| Narrowing.NarrowOnlyShrinks | internal/app/authorization_constraints.go:24-98 | no set, argument limit or non-zero bound grows, the decision's own limits are met and nothing is lowered further, and the result is a valid ceiling |
| Narrowing.NarrowCommutes | internal/app/authorization_constraints.go:24-98 | two decisions in either order give the same constraints or fail both ways |
| Narrowing.NarrowAgain | internal/app/authorization_constraints.go:24-98 | applying a decision twice changes nothing |
| Narrowing.OnlyTheSetMatters | internal/app/authorization_constraints.go:24-98 | the outcome of any number of narrowings depends only on the set of decisions applied |
| Freshness.FreshAuthorizer.constructor | internal/app/authorization_freshness.go:41-53 | a valid configuration starts with an empty table |
| Freshness.FreshAuthorizer.LookUp | internal/app/authorization_freshness.go:104-118 | a hit is the entry under the caller's request ID; an unusable entry is deleted |
| Freshness.FreshAuthorizer.Store | internal/app/authorization_freshness.go:120-144 | stores until the earlier of TTL and expiry, and never a new key into a full table |
| Freshness.StoredIsServed | internal/app/authorization_freshness.go:104-144 | a stored decision is served to every later caller of its scope that it is fresh for, under the caller's request ID, until the TTL of its outcome, while revocation has not overtaken it |
| Freshness.ValidateFresh | internal/app/authorization_freshness.go:146-154 | accepts exactly the decisions valid for the request and current at the clock |
| FreshnessRuns.RunKeeps | internal/app/authorization_freshness.go:55-88 | the invariants behind the next rows hold in every interleaving of calls and revocations |
| FreshnessRuns.AnswerIsTraced | internal/app/authorization_freshness.go:55-88 | each answer, equal ones counted separately, was given by one call, in progress throughout, that began with the epoch the answer carries visible and in between read the revocation state the answer carries |
| FreshnessRuns.NeverOlderThanTheEpoch | internal/app/authorization_freshness.go:55-88 | with non-decreasing epochs an answer is never older than the epoch visible at the step that began its own call |
| FreshnessRuns.AnswersMatchRevocation | internal/app/authorization_freshness.go:156-161 | with revocation state, an answer agrees with a state its own call read between its beginning and its answer: not older than its epoch, and the same checkpoint at the same epoch |
| FreshnessRuns.NeverOlderIff | internal/app/authorization_freshness.go:80-85 | that holds of all runs if and only if revocation state is configured |
| FreshnessRuns.AnswersComeFromTheLiveAuthorizer | internal/app/authorization_freshness.go:69-87 | every answer carries its caller's request ID, is valid for the request, issued, begun and unexpired at the call's time, says allowed exactly when it allows, and equals a live decision for the same request up to its ID; a hit is younger than the TTL of its outcome |
| FreshnessRuns.HitIsReachable | internal/app/authorization_freshness.go:55-88 | a run in which a second call with another request ID is answered from the cache |
| FreshnessRuns.CacheStaysBounded | internal/app/authorization_freshness.go:138-143 | the table never exceeds MaxEntries, however many calls miss at once |
| CanonicalJson.ParseState.Token | internal/canonicaljson/canonicaljson.go:145-148 | reading consumes one token or reports the end |
| CanonicalJson.ParseState.Value | internal/canonicaljson/canonicaljson.go:141-208 | the recursive descent in place agrees with the parsing function in value, position, member count and error |
| CanonicalJson.ParseState.Items | internal/canonicaljson/canonicaljson.go:161-173 | the array loop likewise |
| CanonicalJson.ParseState.Members | internal/canonicaljson/canonicaljson.go:174-204 | the object loop likewise |
| JsonDocuments.ParsesDocument | internal/canonicaljson/canonicaljson.go:141-208 | on a document's tokens parsing succeeds if and only if depth, strings, keys and numbers are within limits, no object repeats a key and the members over the whole document fit; it then returns the document's value and stops right after it |
| JsonDocuments.ReportsFirstFault | internal/canonicaljson/canonicaljson.go:141-208 | on a document's tokens the reported error is that of its first fault in reading order |
| JsonDocuments.Reconstruct | internal/canonicaljson/canonicaljson.go:141-208 | whatever is accepted is the token list of some document |
| JsonDocuments.ParseInvertsTokens | internal/canonicaljson/canonicaljson.go:122-132 | a text parses to a value if and only if it is exactly the tokens of an acceptable document with that value |
| JsonDocuments.ObjectHoldsMembers | internal/canonicaljson/canonicaljson.go:175-199 | the object built from distinct members holds each value under its key and nothing else |
| Surrogates.ValidateSurrogates | internal/canonicaljson/canonicaljson.go:259-298 | the nested index loops decide the scanning predicate |
| Surrogates.ScanLiteral | internal/canonicaljson/canonicaljson.go:265-295 | the inner loop goes from inside a literal to where scanning continues outside, or fails rightly |
| Surrogates.ScanUnicode | internal/canonicaljson/canonicaljson.go:278-294 | one unicode escape and its partner are handled rightly |
| Surrogates.ParseQuad | internal/canonicaljson/canonicaljson.go:300-306 | four hexadecimal digits are read as their value, and anything else is refused |
| Surrogates.ScanFindsUnpaired | internal/canonicaljson/canonicaljson.go:259-306 | a lexically well-formed text passes if and only if in every string literal high and low surrogate escapes are paired |
| SchemaInspection.Inspect | internal/schema/schema.go:191-239 | the worklist ends and accepts if and only if node count, depth, members, strings and references satisfy the recursive predicates, in any member order; each refusal has its reason |
| SchemaInspection.Visit | internal/schema/schema.go:202-236 | one round trades an item for its children without changing what is still owed |
| SchemaInspection.PushMembers | internal/schema/schema.go:216-224 | members are pushed in any order; a non-local reference is found exactly when there is one |
| SchemaInspection.NodesTake | internal/schema/schema.go:216-224 | the node count of an object does not depend on the order its members are taken in |
| SchemaCache.Validator.constructor | internal/schema/schema.go:72-74 | the cache bound is the given one if it is admissible and always between 1 and 1024 |
| SchemaCache.Validator.Compile | internal/schema/schema.go:122-159 | hit, failed compilation and insertion with eviction from the back leave the specified cache, valid for the next call, and answer what compiling afresh would |
| SchemaCache.Validator.EvictBack | internal/schema/schema.go:153-157 | the loop drops exactly the least recently used documents beyond the bound from both the list and the map |
| SchemaCache.HoldsTheMostRecent | internal/schema/schema.go:129-157 | after any run the cache holds exactly the most recently used compilable documents up to its bound, in order of last use, map and list in agreement |
| SchemaCache.RecentIsByLastUse | internal/schema/schema.go:129-157 | that order is by the call that last used each document: every used document once, the latest first |
| SchemaCache.CachingIsTransparent | internal/schema/schema.go:122-159 | every call answers what compiling afresh would |
| JsonPointer.Pointer | internal/schema/schema.go:279-289 | the builder loop prints the specified pointer |
| JsonPointer.EscapeFirst | internal/schema/schema.go:286-286 | replacing tildes and then slashes equals escaping byte by byte |
| JsonPointer.ParsePointer | internal/resourceprojection/projection.go:189-214 | splitting and unescaping in place computes the parse or its failure |
| JsonPointer.UnescapePart | internal/resourceprojection/projection.go:195-211 | the position loop unescapes one part |
| JsonPointer.ValidJSONPointer | internal/domain/tool_catalog.go:430-444 | the publication-time check accepts exactly what the parser accepts |
| JsonPointer.CheckIsParse | internal/domain/tool_catalog.go:430-444 | both accept exactly the texts that begin with a slash and follow every tilde by 0 or 1 |
| JsonPointer.ParsePrint | internal/resourceprojection/projection.go:189-214 | every non-empty token list is parsed back from its print |
| JsonPointer.PrintParse | internal/schema/schema.go:279-289 | every accepted pointer is printed back byte for byte |
| JsonPointer.Resolve | internal/resourceprojection/projection.go:216-240 | the loop over tokens computes the resolution |
| JsonPointer.IndexIsStandardIff | internal/resourceprojection/projection.go:226-234 | array tokens mean what section 4 of RFC 6901 says, for arrays of every length, if and only if they are no signed numeral |
| JsonPointer.LocationsResolve | internal/resourceprojection/projection.go:216-240 | printing, parsing and resolving the location of any subtree returns that subtree |
| SemanticVersions.ValidSemverIdentifiers | internal/domain/tool_catalog.go:69-82 | accepts exactly the non-empty dotted lists of identifiers, without leading zeros where they are numeric and that is asked |
| SemanticVersions.MatchesIdentifier | internal/domain/tool_catalog.go:74-76 | accepts exactly non-empty letters, digits and hyphens |
| SemanticVersions.NumericIdentifier | internal/domain/tool_catalog.go:84-91 | accepts exactly the digit strings |
| SemanticVersions.ParseSemanticVersion | internal/domain/tool_catalog.go:38-67 | accepts exactly the valid versions and returns their parts |
| SemanticVersions.PlusIsNoIdentifier | internal/domain/tool_catalog.go:43-43 | the separate test for a second plus sign never decides |
| SemanticVersions.CompareVersions | internal/domain/tool_catalog.go:96-110 | the numeric loop and the prerelease rules compute the comparison |
| SemanticVersions.CompareIdentifiers | internal/domain/tool_catalog.go:111-145 | the identifier loop computes the comparison |
| SemanticVersions.CompareAntisymmetric | internal/domain/tool_catalog.go:96-146 | swapping the versions negates the result, which is 0 exactly on equal parts |
| SemanticVersions.CompareTransitive | internal/domain/tool_catalog.go:96-146 | precedence is transitive, strictly if either step is strict |
| SemanticVersions.IdLessIsSection11 | internal/domain/tool_catalog.go:116-137 | on admitted identifiers the length-then-bytes rule is integer comparison and numbers come before everything else |
| SemanticVersions.CompareIsSection11 | internal/domain/tool_catalog.go:95-146 | on parsed versions a negative result is exactly the precedence that section 11 of Semantic Versioning 2.0.0 defines |
| SemanticVersions.PrecedenceText | internal/domain/tool_catalog.go:42-66 | the parts spell the text before the plus sign back |
| SemanticVersions.EqualIffSamePrecedence | internal/domain/tool_catalog.go:95-146 | two versions compare equal if and only if their texts before the plus sign are identical |
| SemanticVersions.HistoryIsOrdered | internal/domain/tool_catalog.go:148-153 | checking each version against its predecessor orders the whole history |
| SemanticVersions.NoPrecedenceComesBack | internal/domain/tool_catalog.go:148-153 | no text before the plus sign is ever published twice |
| ToolDiscovery.CompareIsOrder | internal/adapters/http/tool_discovery.go:302-310 | the cursor comparison is the order the list is sorted by |
| ToolDiscovery.SortSlice | internal/adapters/http/tool_discovery.go:99-104 | the slice is left sorted in place |
| ToolDiscovery.SortPermutes | internal/adapters/http/tool_discovery.go:99-104 | sorting keeps every occurrence, repeated tools included, and orders them |
| ToolDiscovery.SortKeeps | internal/adapters/http/tool_discovery.go:99-104 | a list that names each tool once becomes strictly ascending with the same members |
| ToolDiscovery.Search | internal/adapters/http/tool_discovery.go:105-107 | the search splits the list exactly at the cursor |
| ToolDiscovery.ServePage | internal/adapters/http/tool_discovery.go:99-132 | a served page is the slice right after the cursor with the cursor of its last tool, or none at the end |
| ToolDiscovery.PageIsGapless | internal/adapters/http/tool_discovery.go:105-131 | a page holds exactly the visible tools after the cursor up to the next cursor |
| ToolDiscovery.WalkAscends | internal/adapters/http/tool_discovery.go:99-132 | following cursors never repeats a key and only ascends, even if the visible tools change |
| ToolDiscovery.WalkMissesNothing | internal/adapters/http/tool_discovery.go:99-132 | a finished walk returned every tool that was visible on all its pages |
| ToolDiscovery.FixedSetIsListedOnce | internal/adapters/http/tool_discovery.go:99-132 | on a fixed set of n tools there is a walk that stops, and every one returns all of them in exactly ceil(n / limit) pages, at least one |
| ToolDiscovery.CeilDivIsCeiling | internal/adapters/http/tool_discovery.go:108-111 | the page count above is n / limit rounded up |
| InvocationState.OneStep | internal/invocationstate/state.go:103-136 | what the rule table allows a single command to do, and what a refusal leaves |
| InvocationState.TransitionIff | internal/invocationstate/state.go:103-206 | a command is accepted if and only if it was decided on the current version, the version has room, and its actor may make that move with the approval, fence or resolution the move needs; an accepted one leads to its target and the next version |
| InvocationState.RefusalReason | internal/invocationstate/state.go:103-134 | which refusal is given: unknown state, unknown actor, version conflict and terminal state exactly then; a missing approval, fence or resolution only if it alone was missing; a forbidden actor or an illegal move only if nothing could make it right |
| InvocationState.ExecutionIsFenced | internal/invocationstate/state.go:182-190 | in every run whatever enters or leaves Executing was done by a worker with the current fence |
| InvocationState.SuccessIsReachable | internal/invocationstate/state.go:158-206 | some run from every version with room for it ends in Succeeded |
| InvocationState.NeverBack | internal/invocationstate/state.go:158-206 | once past approval an invocation never goes back to before Ready |
| InvocationState.ExecutionWasCleared | internal/invocationstate/state.go:158-206 | whatever reaches Executing went through Validated, Authorized, PreToolPassed and Ready in a row, with satisfied approval if it waited, and has not been back since |
| InvocationState.NoBlindRetry | internal/invocationstate/state.go:192-202 | after Ambiguous a new Executing is preceded by a fenced reconciliation or a recorded resolution |
| InvocationState.SuccessWasExecuted | internal/invocationstate/state.go:185-205 | Succeeded implies an earlier Executing |
| InvocationState.TerminalIsFinal | internal/invocationstate/state.go:113-115 | a terminal state and its version never change |
| InvocationState.VersionCounts | internal/invocationstate/state.go:110-135 | the version counts the transitions that took effect |
| InvocationState.OnePerVersion | internal/invocationstate/state.go:110-112 | of two commands decided on the same version at most one takes effect |

## Left out

- SQL text, isolation levels and the pool: each transaction or single statement is one atomic step, Finalize and the outbox updates included; the tables' CHECK constraints appear only where a guard depends on them.
- HTTP handlers, middleware, problem documents, administration, generated API code, configuration, telemetry and health checks: plumbing.
- OIDC, JWT, HMAC, base64, TLS and SPIFFE: cryptography and network; cursors are opaque round trips and hashes are injective.
- JCS formatting, JSON Schema compilation and binary64 conversion: libraries; number acceptance and the compiler are parameters, and UTF-8 validity and the byte limit of the input come before the model.
- The decoder's own lexing: the token stream is what it yields before its first error or the end.
- Connectors, credential providers, the downstream client and the authorization client: arbitrary results.
- Credential binding, tool definition, connector and registry validators, connectorState and projection field checks: each is a conjunction of independent field tests with no state behind it; so the null literal that one of the projection checks admits and the other refuses is not modelled.
- ToolCalls.CompletionIsFinal: the replayed payload is the document that was stored; its column keeps the JSON value and not its bytes.
- RecordAuthorization: the decision row only, not the audit event and outbox message written with it.
- White space outside ASCII, which trimming also removes, and the wrap-around of the 64-bit use counter of the credential cache.
- Attempts.AttemptClaimer.TryClaim: one invocation at a time; whether evidence is a JSON object is given with the request.
- CanonicalJson.ParseState.Value: at the depth limit a malformed next token is reported as invalid here and as a limit there, where the depth is tested before the read; acceptance is the same.
- Capabilities.Capability.UseSecret: the callback is a function of the bytes, so one that writes to its buffer is not modelled; one that keeps the buffer is left with zeros.
- Outbox.JitterStaysInBand: over reals, so not the rounding of the float64 product to nanoseconds.
- ToolDiscovery.SortSlice: the sorting algorithm is the library's; only its effect on the slice is here.
- ToolDiscovery.ServePage: not the projection of each tool into its response document, nor the expiry of cursors.
- ToolDiscovery.WalkAscends: about listings that name each tool version once, as the catalogue key ensures; an entry repeated within a page would be returned twice, and one repeated across a page boundary once.
- Freshness.FreshAuthorizer.LookUp: a request without a list and one with an empty list share a key here, while the encoded key of the gateway tells them apart; and texts that differ only in bytes that are not UTF-8 have different keys here, while encoding replaces those bytes and merges them.
- JsonPointer.Resolve: numerals beyond the integer range are indices past the end here and conversion errors there, which resolve alike.
- Surrogates.ScanFindsUnpaired: for lexically well-formed texts; on others the scan may drop out of a literal early, and the decoder refuses the text afterwards.
