# llm-broker: a verified model of its account scheduler

llm-broker spreads client requests over a pool of upstream accounts. This project models the parts of it whose
correctness is hard to see, and proves what they promise for every input, every run and every interleaving.
`dafny verify dfyconfig.toml` checks the whole project with Dafny 4.11.

Two layers run through the whole project. The *specification* modules describe each operation as a function on
values, and the theorems are about those functions. Where the program updates objects in place, a second module holds
the same operation as a class with loops and assignments, and every method is proved equal to its specification
function, so that the theorems hold of it.

| Part of the program | Specification and theorems | Objects and loops |
| --- | --- | --- |
| who may serve, which bucket, which account | `Selection`, `SelectionMeaning`, `Balance` | `SelectionLoops` |
| route leases and affinity claims | `RouteProtocol`, `RouteRuns`, `RouteSafety`, `RouteOutcome` | `RouteTable` |
| accounts, quota buckets and their store | `PoolState`, `PoolCoherence`, `PoolEffects`, `PoolRekeying`, `PoolHistory`, `PoolSafety`, `BucketMoves`, `PoolMigration` | `AccountPool` |
| the relay's retry loop | `Relay`, `RelaySafety`, `RelayReports` | `RelayLoop` |
| incremental stream writers | `StreamWriter`, `StreamSafety`, `StreamClosing`, `StreamText`, `StreamBytes`, `StreamSink` | `CompatStream` |
| preflight of an upstream stream | `Preflight` | `PreflightLoop` |
| Codex quota families | `CodexQuota` | methods in `CodexQuota` |
| sliding-window limiter | `RateLimiter` | `LimiterTable` |
| cache-control pruning | `CacheControl` | `CacheWalk` |
| affinity names | `AffinityNamespace` | method in `AffinityNamespace` |

`Domain` holds the entities and the few string helpers of the standard library that the code relies on.

## What is proved

* **Route protocol.** A transition system with one program counter per client: reading the binding, the lock region,
  waiting, saving the binding and releasing the claim are separate steps, interleaved arbitrarily, and anybody may write
  the binding store in between. In every reachable state each claim is registered and open or closed exactly once, a
  stale lease never releases a newer claim, the inflight counters equal the outstanding leases, no waiter is stuck, and
  the guard in `finish` is never needed. How a request leaves the lock region is said case by case on what it was told.
  While a claim is open nobody else is routed under its key by unbound selection; a follower that waited for it reads
  the owner's binding, and whoever has read it is granted the owner's account exactly if that account is usable.
* **Scheduling.** Selection is sound and complete for conditions written on the columns of accounts, cells and buckets; the map iteration order decides nothing but ties of last use.
  The greedy rule keeps the D'Hondt balance after any number of acquisitions, its peak load is optimal among all ways to
  spread the same requests, and idle buckets of equal priority rotate.
* **Pool.** After any sequence of operations the pool is coherent with its store, whatever memory held before. Each
  operation is characterised by what callers are shown of every account afterwards; an observed quota state moves every
  account of the reporter's bucket to the key its driver derives, and the bucket with the first that leaves. A bucket's cooldown is the maximum
  of everything its history proposed, the breaker counts the trailing run of server errors, what other buckets report
  does not matter, and no background operation revives an account. Installing drivers keeps everybody's quota in every
  visiting order exactly under a condition on the loaded rows.
* **Relay.** On every run at most `maxRetry + 1` attempts are made, the client is answered exactly once unless it is
  found gone, every lease is returned before the next is taken, and nothing banned is ever leased again. Between a lease
  taken and returned exactly those reports, exclusions and answers are made that the outside world's answers require, and
  a run ends only when nothing is left to try.
* **Streams.** The writers refine a reference that sees the whole input at once, so chunking and a missing final newline
  are irrelevant, also when downstream writes fail. The stream is closed by exactly one `[DONE]`, synthetic exactly if no
  line was a terminal signal; it is the last write exactly if no later line emits anything. The bytes a client gets are
  exactly the events that the input lines cause, and nothing is written after a write that failed.
* **Smaller pieces.** The preflight conserves bytes and its verdict is independent of the reads up to one exactly
  described edge; the Codex bucket cooldown is the least time at which a recorded family is servable; the limiter
  decides as one that never forgets; cache-control pruning keeps exactly the marks it should; affinity names decode.

## Where the code and its intent differ

* Two clients that both read the binding before either is accepted can end up on different accounts under one affinity
  key, although both accounts stay usable throughout (`RouteSafety.ColdClientsCanDisagree` is such a run).
  `RouteSafety.ReaderFindsOwnerIffLater` says exactly when a client finds the owner, and
  `RouteSafety.LaterReaderGetsOwner` exactly when it is then granted the owner's account.
* A request that must continue is granted an account it does not continue on exactly if, under an affinity key, it is
  pinned to an account of another provider: the pin hides the binding and is then itself ignored
  (`RouteProtocol.RequiredContinuity`; `RouteProtocol.ContinuityLost` is such a request).
* `SetDrivers` derives each account's key from the quota state its bucket has by then. For a driver whose key depends on
  that state, the second account of a shared bucket can lose its quota (`PoolMigration.SetDriversCanLoseQuota`).
  `PoolMigration.SetDriversKeepsQuotas` gives a condition on the loaded rows under which nobody does, and
  `PoolMigration.SetDriversKeepsQuotasIff` shows that it is exact while loaded buckets hold different quotas.
* An observed quota state moves a bucket with the first account that leaves it. If the drivers derive different keys for
  its accounts, or the new key has a bucket already, the report does not reach them all
  (`PoolRekeying.ReportReachesAllIff`).
* `[DONE]` is sent once but need not be the last write (`StreamSafety.PingAfterDone`); it is exactly if no line after the
  one that closed the stream emits anything (`StreamClosing.DoneIsLastIff`).
* A cooled-down Codex bucket also refuses models of families nothing is recorded of
  (`CodexQuota.RefusedThoughServable`).
* The preflight's verdict on a stream of exactly 8192 bytes without a complete event depends on whether the end of the
  stream is reported together with its last bytes (`Preflight.VerdictIndependentIff`).

## Assumptions

* The clock is past the epoch: zero stands for "not exhausted" in the Codex quota arithmetic, and the bucket theorems
  assume such a clock. `CodexQuota.ZeroIsAmbiguousIff` says for all clocks what the assumption buys.
* Account ids in the store are those of their rows; provider and subject need not be unique unless a lemma says so.

## Model

| member | source | states |
|---|---|---|
| Selection.UnboundSelection | internal/pool/pool_schedule.go:331-384 | unbound selection fails if and only if no account is usable; otherwise its account is usable, the least recently used one of its bucket, and the load key leased is the load key scored |
| Selection.SelectedBucketLeads | internal/pool/pool_schedule.go:386-410 | the selected bucket ranks before the bucket of every other account that may serve: lower (inflight + 1) / weight, then older assignment, then smaller key |
| Selection.SelectionSound | internal/pool/pool_schedule.go:302-329 | bound or not, a selected account is usable and leased under its own load key; a bound account of the right provider is the one selected |
| Selection.GroupsMeaning | internal/pool/pool_schedule.go:331-362 | the grouping loop yields for each bucket all and only its usable accounts, the greatest priority among them and their common class |
| Selection.IterationOrderIrrelevant | internal/pool/pool_schedule.go:332-376 | for any two iteration orders of the account map the same bucket and load key are chosen, and accounts equally long unused |
| Selection.Lru | internal/pool/pool_schedule.go:493-506 | the index of the first account of least last use |
| SelectionMeaning.UsableIsFit | internal/pool/pool_schedule.go:17-29 | what usable means, on the columns: active, of the driver's provider, named by no exclusion, its bucket's cooldown over, its cell absent or in service, off cooldown and with a proxy, its lane serving the surface, and accepted by the driver for the bucket's state |
| SelectionMeaning.UnboundPicksFit | internal/pool/pool_schedule.go:331-384 | on the columns: unbound selection fails if and only if no account meets the conditions; otherwise it picks one that does, under its own load key, used least recently among those of its bucket that do |
| SelectionMeaning.PickedBucketPrecedes | internal/pool/pool_schedule.go:386-410 | its bucket precedes that of every other account that meets them: lower (inflight + 1) / (1 + root of priority), then older assignment, then smaller key, where a bucket counts with the greatest priority of its members and an account in manual mode with its own |
| SelectionMeaning.BoundPicksFit | internal/pool/pool_schedule.go:302-329 | a bound account is picked if and only if it meets the conditions, otherwise the error says whether it is unknown, excluded or unavailable; one of another provider is ignored |
| SelectionLoops.CollectBuckets | internal/pool/pool_schedule.go:331-362 | the loop over the account map builds exactly the groups of the specification |
| SelectionLoops.SortCandidates | internal/pool/pool_schedule.go:364-374 | the candidates are listed once each in increasing key order |
| SelectionLoops.LeastInflight | internal/pool/pool_schedule.go:386-410 | the loop over sorted candidates finds the one that ranks before all others |
| SelectionLoops.LeastRecentlyUsed | internal/pool/pool_schedule.go:493-506 | the loop finds the first account of least last use |
| SelectionLoops.SelectAccount | internal/pool/pool_schedule.go:287-384 | the imperative selection returns what the specification selects, with the same errors for bound accounts |
| Balance.TurnIsGreedy | internal/pool/pool_schedule.go:376-410 | one unbound acquisition is one greedy step over the eligible buckets and leases the key it scored |
| Balance.DHondtBalance | internal/pool/pool_schedule.go:386-430 | from zero load, after any number of unbound acquisitions with none finished, inflight_i * w_j <= (inflight_j + 1) * w_i for all buckets i and j |
| Balance.EqualPriorityEqualLoad | internal/pool/pool_schedule.go:386-430 | buckets of equal priority then differ by at most one request |
| Balance.EveryTurnCounts | internal/pool/pool_schedule.go:412-430 | every acquisition is accounted for: the inflight counters add up to the number of acquisitions |
| Balance.PeakLoadOptimal | internal/pool/pool_schedule.go:386-430 | no other way of spreading as many requests over the same buckets has a lower peak of requests per unit of weight |
| Balance.Rotation | internal/pool/pool_schedule.go:175-186 | with n idle buckets of equal priority, any n consecutive acquire-then-finish picks choose each bucket exactly once |
| Balance.RotationRepeats | internal/pool/pool_schedule.go:175-186 | the rotation repeats with period n |
| RouteProtocol.RequiredContinuity | internal/pool/pool_schedule.go:203-308 | a request that must continue never creates or awaits a claim, and a failure changes nothing; if granted, it is granted the account it continues on, its hard account or else the one its binding names, if and only if it is not, under an affinity key, pinned to an account of another provider; if it is, it is granted whatever unbound selection finds |
| RouteProtocol.ContinuityLost | internal/pool/pool_schedule.go:302-308 | such a request: pinned to a Claude account, it must continue elsewhere and is granted an account that neither pin nor binding names |
| RouteProtocol.GrantedIsUsable | internal/pool/pool_schedule.go:203-272 | every granted route, bound or not, goes to an account that may serve, under the load key of that account; a pinned account is the one granted |
| RouteProtocol.AccountForFinds | internal/pool/pool_schedule.go:275-285 | the lookup finds an account of the binding's provider and subject whenever there is one |
| RouteOutcome.UnledOutcome | internal/pool/pool_schedule.go:243-272 | a request without hard account that need not continue and whose binding leads to no account that may serve: under a registered claim it waits for that claim and nothing changes; otherwise it is granted an account that may serve, with a fresh claim registered under its key, or fails with the claims as before if there is none |
| RouteOutcome.LedOutcome | internal/pool/pool_schedule.go:218-232 | a request whose binding leads to an account that may serve is granted that account, without a claim and whatever claim is open |
| RouteOutcome.RequiredOutcome | internal/pool/pool_schedule.go:220-246 | a request that must continue and is led nowhere fails as owner missing or unavailable, according to whether it read a binding, and changes nothing |
| RouteOutcome.PinnedOutcome | internal/pool/pool_schedule.go:203-241 | a hard account is granted if and only if it may serve, otherwise the error says why; one of another provider counts as no owner where one is required without a key, and elsewhere any account that may serve is granted; no claim is touched |
| RouteRuns.StepKeepsInv | internal/pool/pool_schedule.go:188-273 | every step of every client, lease or foreign writer keeps the protocol invariant (claims, loads, stamps, bindings, waiters) |
| RouteRuns.RunKeepsInv | internal/pool/pool_schedule.go:188-491 | so does every run |
| RouteSafety.ClaimOpenXorClosedOnce | internal/pool/pool_schedule.go:248-273 | on every interleaving each claim is registered and open or closed exactly once, never both or neither, and under one key only |
| RouteSafety.StaleLeaseHarmless | internal/pool/pool_schedule.go:432-491 | Accept and Finish of a lease leave any claim that is not the lease's own registered and open |
| RouteSafety.QuietLeavesNothing | internal/pool/pool_schedule.go:432-491 | when all leases are finished, no claim is registered, nothing is inflight, and every waiter can go on |
| RouteSafety.WaiterCanBeWoken | internal/pool/pool_schedule.go:250-258 | no waiter is stuck: some lease can release its claim in at most two steps of its own |
| RouteSafety.InflightIsOutstanding | internal/pool/pool_schedule.go:412-430 | in every reachable state the inflight counter of each load key is the number of leases under it not yet given back, and sequence stamps are distinct |
| RouteSafety.FinishGuardNeverNeeded | internal/pool/pool_schedule.go:475-491 | when a lease finishes, its load exists and is positive, and exactly that load drops by one |
| RouteSafety.FollowerSeesOwner | internal/pool/pool_schedule.go:254-258 | a follower that waited for a claim released by a successful Accept reads that lease's binding, unless somebody wrote under the key since |
| RouteSafety.ReaderFindsOwnerIffLater | internal/pool/pool_schedule.go:196-203 | if the accepted binding is the only write under its key, a client finds it if and only if it read the store after that write |
| RouteSafety.LockFollowsBinding | internal/pool/pool_schedule.go:218-232 | a request without a hard account is granted the account its binding leads to, without a claim, whenever that account is usable |
| RouteSafety.LaterReaderGetsOwner | internal/pool/pool_schedule.go:194-232 | in every reachable state, a client that read the store after an owner was accepted, and before anybody else wrote under the key, is granted the owner's account if and only if that account is usable when the client takes the lock, and then without a claim |
| RouteOutcome.SingleFlight | internal/pool/pool_schedule.go:248-262 | in every reachable state, while a claim on a key is open no request under it is routed by unbound selection: it is granted the account it is told to go to, without a claim, or waits for that claim with nothing else changed, or fails; the exception is a request pinned to an account of another provider, exactly |
| RouteOutcome.FollowerGetsOwner | internal/pool/pool_schedule.go:250-258 | in every reachable state, a client waiting for a claim that was released by a successful Accept can go on, and if nobody writes under the key before it reads and locks it is granted the owner's account, provided that account may serve |
| RouteOutcome.AcceptPublishes | internal/pool/pool_schedule.go:440-465 | an uninterrupted Accept saves the binding, closes the lease's claim if it is still registered, and marks it with that binding |
| RouteOutcome.AcceptFails | internal/pool/pool_schedule.go:440-465 | an Accept whose binding cannot be saved saves and accepts nothing, and still closes the lease's claim |
| RouteOutcome.AcceptUnkeyed | internal/pool/pool_schedule.go:440-465 | without an affinity key an Accept only marks the lease |
| RouteSafety.ContinuityOnRuns | internal/pool/pool_schedule.go:203-246 | required continuity in every reachable state, for whatever the client has read |
| RouteSafety.ColdClientsCanDisagree | internal/pool/pool_schedule.go:194-203 | on one unchanged pool of two idle accounts and without foreign writes, a run in which two clients that read before either was accepted get different accounts under one key; with the owner's binding the second would have got the owner's account |
| RouteTable.RouteTable.LeaseAccount | internal/pool/pool_schedule.go:412-430 | leasing raises the load of the account's key by one, stamps it with the next sequence number, and changes nothing else |
| RouteTable.RouteTable.ReleaseAffinityClaim | internal/pool/pool_schedule.go:432-438 | a claim is deleted and its channel closed only if it is the one registered under the key |
| RouteTable.RouteTable.AcquireLocked | internal/pool/pool_schedule.go:287-384 | selection and leasing in place: the route is the one selected, or nothing changes |
| RouteTable.RouteTable.AcquireRegion | internal/pool/pool_schedule.go:203-272 | the lock region in place does to claims, loads and outcome what the transition system's lock step does |
| RouteTable.RouteTable.UnboundPart | internal/pool/pool_schedule.go:243-272 | the unbound part waits on a pending claim, or claims the key and releases the claim when nobody is available |
| RouteTable.RouteTable.FinishLocked | internal/pool/pool_schedule.go:485-490 | the critical section of finish gives the load back and releases the lease's claim |
| RouteTable.AttemptLease.Accept | internal/pool/pool_schedule.go:440-465 | only the first Accept of an unfinished lease saves the binding; the claim is released whether the save succeeds or not; later calls change nothing |
| RouteTable.AttemptLease.Finish | internal/pool/pool_schedule.go:467-491 | Finish and Abort are idempotent: only the first gives the route back and releases the claim |
| RouteTable.BindingStore.SetSessionBinding | internal/pool/pool_runtime.go:32-45 | an account without a subject is refused; a successful save stores provider, subject and expiry under the key, anything else stores nothing |
| PoolCoherence.OperationLeavesCoherent | internal/pool/pool.go:75-127 | after any operation, whatever memory held before, a fresh reload shows every account with the same columns, bucket key, cooldown and state as memory |
| PoolCoherence.OperationWritesThrough | internal/pool/pool_accounts.go:28-257 | every operation leaves memory and store equal in accounts and buckets, up to unsaved default buckets |
| PoolCoherence.RunStaysCoherent | internal/pool/pool.go:75-127 | coherence after every prefix of every sequence of operations |
| PoolCoherence.MoveBucketWrites | internal/pool/pool_buckets.go:64-84 | moving or merging a bucket under a new key is written through |
| PoolCoherence.ObserveWrites | internal/pool/pool_observe.go:183-360 | an observation, including key migrations of all members, is written through |
| PoolEffects.UpdateShows | internal/pool/pool_accounts.go:65-112 | an update shows exactly the edited columns, cooldown and state under the derived key and keeps the id; accounts already under that key are shown the same quota, accounts left behind under the old key a fresh one, all others what they were |
| PoolEffects.AddShows | internal/pool/pool_accounts.go:114-141 | an added account is shown as given under its derived key, and so is the quota of those already there; accounts under a key it brought along and gave up are shown a fresh quota, all others what they were |
| PoolEffects.DeleteForgets | internal/pool/pool_accounts.go:143-163 | deletion removes one account, shows all others unchanged, and drops the bucket if and only if nobody is left in it |
| PoolEffects.StoreTokensShows | internal/pool/pool_accounts.go:165-189 | new tokens make the account active without error and its bucket free of cooldown, and change nothing else |
| PoolEffects.RecoverShows | internal/pool/pool_accounts.go:209-242 | all blocked accounts of the bucket become active, the bucket loses its cooldown, everything else is unchanged |
| PoolEffects.MarkErrorShows | internal/pool/pool_accounts.go:244-257 | one account is in error with the message, everything else is unchanged |
| PoolEffects.ClearCooldownShows | internal/pool/pool_accounts.go:28-51 | the accounts of the bucket are shown without cooldown, everything else is unchanged |
| PoolEffects.ObserveShowsState | internal/pool/pool_observe.go:334-349 | with stable keys, the reporting bucket shows the reported quota state and every other bucket the state it had |
| PoolEffects.ObserveShowsAccount | internal/pool/pool_observe.go:230-332 | with keys stable under the reported quota state, if there is one: per effect kind, what the reporting account is shown as, and that no other account is shown differently, its key spelled out |
| PoolRekeying.ObserveRekeys | internal/pool/pool_observe.go:334-349 | for every visiting order and whatever keys the drivers derive, an observation with a quota state leaves every account as its effect notes it, those of the reporter's provider and bucket under the key their driver derives from that state and all others under their own; the bucket, with the reported state and the joined cooldown, goes where the first account that leaves goes, unless a bucket is there already; a key somebody left has no bucket, and no other bucket changes |
| PoolRekeying.ReportReachesAllIff | internal/pool/pool_buckets.go:64-84 | the reported quota reaches every account of the bucket if and only if they all end under one key, and that is the one they had or has no bucket yet |
| PoolEffects.CleanupExact | internal/pool/pool_observe.go:94-149 | for every visiting order: an expired cooldown is cleared, a running one stays, a bucket left without one gets the time that the driver of its first active account names for its state, if past the epoch; no account changes |
| PoolHistory.ObserveChanges | internal/pool/pool_observe.go:183-360 | one observation joins its proposal into its own bucket's cooldown, counts for its own bucket, and leaves all other buckets and all keys alone |
| PoolHistory.CooldownIsLatest | internal/pool/pool_accounts.go:53-63 | after any stable history without clearing operations, from any counter below the limit, a bucket's cooldown is the maximum of its first value and everything proposed for it |
| PoolHistory.ObservingNeverShortens | internal/pool/pool_accounts.go:53-63 | without clearing operations a cooldown is never shortened, whatever the counters |
| PoolHistory.SameProposalsSameCooldown | internal/pool/pool_observe.go:257-332 | two such histories that propose the same cooldowns for a bucket end with the same cooldown, in whatever order and from whichever accounts |
| PoolHistory.OthersIrrelevant | internal/pool/pool_observe.go:183-360 | dropping everything but the bucket's own observations changes neither its error counter nor, between clearing operations, its cooldown |
| PoolHistory.InterleavingIrrelevant | internal/pool/pool_observe.go:183-360 | two histories in which the bucket's own observations are the same up to order, none of them a server error, end with the same cooldown, whatever else they hold |
| PoolHistory.BreakerCountsStreak | internal/pool/pool_observe.go:236-255 | from any counter below the limit the error counter of a bucket is its trailing run of server errors over all members, counted on from the start, modulo 3; cleanups, clearings, recoveries, tokens, error marks and refreshes in between do not matter |
| PoolHistory.AlwaysBelowLimit | internal/pool/pool_observe.go:236-255 | on every run of all operations, stable or not, every error counter is below 3 between calls |
| PoolHistory.LastProposed | internal/pool/pool_observe.go:240-254 | the 30-second pause is proposed exactly when the run of server errors reaches a multiple of 3 |
| PoolSafety.BackgroundRevivesNobody | internal/pool/pool_observe.go:94-149 | no background operation makes an inactive account active |
| PoolSafety.RunRevivesNobody | internal/pool/pool_observe.go:103-113 | nor does any run of them |
| PoolSafety.InactiveNeverHandedOut | internal/pool/pool_schedule.go:18-29 | after any such run no lock region, bound or unbound, hands out an account that was blocked, disabled or in error at the start |
| PoolMigration.SetDriversKeepsQuotas | internal/pool/pool_observe.go:166-181 | everybody keeps his quota in every visiting order if nobody moves onto a loaded bucket, accounts of different buckets go to different keys, and of two accounts of one bucket either both stay or each goes to the key the other derives once the bucket is gone; no assumption on drivers or quotas |
| PoolMigration.SetDriversKeepsQuotasIff | internal/pool/pool_observe.go:166-181 | while the loaded buckets hold different quotas, none of them the default, that condition on the loaded rows is exact |
| PoolMigration.SetDriversCanLoseQuota | internal/pool/pool_buckets.go:64-84 | rows the store can hold, two Gemini accounts of different subjects under one cooled-down legacy bucket: in both visiting orders whoever comes second ends under a key without a project and with a fresh quota |
| BucketMoves.CleanKeeps | internal/pool/pool_buckets.go:64-84 | under the condition every sequence of moves, whatever keys changed buckets lead to, leaves each account under a key with the quota it had |
| BucketMoves.UncleanLoses | internal/pool/pool_buckets.go:64-84 | without it, and with different quotas, there is a visiting order in which somebody loses his |
| AccountPool.AccountPool.Reload | internal/pool/pool.go:75-127 | loading in place: stored accounts, stored buckets with an empty state normalised, default buckets for other keys in use |
| AccountPool.AccountPool.RefreshBucketKey | internal/pool/pool_buckets.go:64-84 | the account gets its derived key and its bucket moves there; an existing bucket under the new key wins |
| AccountPool.AccountPool.EnsureBucket | internal/pool/pool_buckets.go:113-133 | a missing bucket is created and saved, an existing one kept |
| AccountPool.AccountPool.PersistBucket | internal/pool/pool_buckets.go:150-163 | a bucket is set in memory and saved, an empty state as the empty object |
| AccountPool.AccountPool.BucketAccounts | internal/pool/pool_buckets.go:86-104 | the accounts of the same provider and bucket, in visiting order |
| AccountPool.AccountPool.CoolBucket | internal/pool/pool_accounts.go:53-63 | the bucket's cooldown becomes the later of its own and the proposed one, and is saved |
| AccountPool.AccountPool.Observe | internal/pool/pool_observe.go:183-360 | the observation in place changes memory, store and error counters as specified |
| AccountPool.AccountPool.ApplyEffect | internal/pool/pool_observe.go:203-332 | the effect switch in place, with the breaker's counter |
| AccountPool.AccountPool.Update | internal/pool/pool_accounts.go:65-112 | the edit in place, and whether the account was found |
| AccountPool.AccountPool.Add | internal/pool/pool_accounts.go:114-141 | the insertion in place |
| AccountPool.AccountPool.Delete | internal/pool/pool_accounts.go:143-163 | the deletion in place, and whether the account was found |
| AccountPool.AccountPool.StoreTokens | internal/pool/pool_accounts.go:165-189 | the token update in place, and whether the account was found |
| AccountPool.AccountPool.BucketHasMembers | internal/pool/pool_accounts.go:198-205 | the loop answers whether any account is in the bucket |
| AccountPool.AccountPool.RecoverBucket | internal/pool/pool_accounts.go:209-242 | the recovery loop in place, and that its result is the number of accounts that were blocked in the bucket |
| AccountPool.AccountPool.MarkError | internal/pool/pool_accounts.go:244-257 | the error mark in place |
| AccountPool.AccountPool.ClearCooldown | internal/pool/pool_accounts.go:28-51 | the clearing in place |
| AccountPool.AccountPool.SetDrivers | internal/pool/pool_observe.go:166-181 | the loop that adopts derived keys in place |
| AccountPool.AccountPool.Cleanup | internal/pool/pool_observe.go:94-149 | both phases of the cleanup loops in place |
| Relay.RoutedIsAllowed | internal/relay/relay_attempt.go:171-178 | a route granted for the request the loop makes is named by none of the exclusions it passes |
| Relay.RetryStays | internal/relay/relay_attempt.go:167-170 | a same-account retry is routed to the same account, unless that account changed its provider meanwhile |
| RelaySafety.RelayRun | internal/relay/relay_flow.go:20-36 | on every run: at most maxRetry + 1 routes, exactly one response unless the client is found gone and exactly one if it never is, every lease returned before the next, and each attempt but the last bans one more account or bucket or retries its account |
| RelayReports.RunProceeds | internal/relay/relay_attempt.go:159-524 | on every run, every lease is asked for with everything barred so far excluded, and between its being taken and returned exactly the attempt's course happens: the upstream error kept, the same-account retry, the one report to the pool, the accept, the exclusion and the answer, each if and only if the outside world's answers require it; and the run ends only when the client is gone or answered, an owner is lost, no route or attempt is left, or the last attempt got stuck |
| RelayReports.ReportedOnce | internal/relay/relay_attempt.go:348-360 | the pool is told exactly once, while the lease is out, of every upstream reply or preflight verdict, of the leased account and with the driver's judgement of it, except for errors of the request, same-account retries and unreadable bodies |
| RelayReports.ServeCourse | internal/relay/relay_attempt.go:183-524 | one attempt logs its course, and ends as answered, stuck, or to be followed |
| RelaySafety.ExecuteDecides | internal/relay/relay_attempt.go:159-524 | one attempt leases at most one route, never leaves a lease out, answers exactly if it is done, and otherwise adds exactly one ban or one same-account retry |
| RelaySafety.NeverBack | internal/relay/relay_attempt.go:151-157 | no account named by an earlier ban is leased again, and nothing is banned twice |
| RelaySafety.BannedAccountGone | internal/relay/relay_attempt.go:151-157 | while bucket keys are stable, the account of a banned attempt is never routed to again |
| RelaySafety.RetriesCapped | internal/relay/relay_attempt.go:348-354 | the driver is told the exact number of earlier same-account retries, so a driver that allows n gets at most n on any account |
| RelayLoop.HandleWithDriver | internal/relay/relay_flow.go:20-36 | the counted loop over mutable attempt state runs as specified |
| RelayLoop.AttemptState.ExecuteAttempt | internal/relay/relay_attempt.go:159-399 | one attempt in place, the lease aborted on every way out |
| RelayLoop.AttemptState.FinishStream | internal/relay/relay_attempt.go:421-466 | the streaming success path in place, with preflight refusals |
| RelayLoop.AttemptState.AnswerFailure | internal/relay/relay_attempt.go:551-568 | a failed run answers with the upstream error kept last, or 503 |
| StreamSafety.StreamRefinesReference | internal/server/compat_openai_stream.go:83-123 | with status 200, any chunked input followed by finalize shows the client what the reference shows of the whole input, whether or not downstream writes fail |
| StreamSafety.ChunkIndependence | internal/server/compat_openai_stream.go:361-401 | any two ways to split the same bytes show the client the same |
| StreamSafety.FinalNewlineIrrelevant | internal/server/compat_openai_stream.go:278-297 | a missing final newline changes nothing |
| StreamSafety.ErrorBodyComplete | internal/server/compat_openai_stream.go:282-285 | with any other status the client gets one error page made from the whole body |
| StreamSafety.ClosedOnce | internal/server/compat_openai_stream.go:247-297 | at most one [DONE] is sent, exactly one unless a downstream write failed, and it is synthetic if and only if no line of the input was a terminal signal |
| StreamSafety.HandleAdvances | internal/server/compat_openai_stream.go:403-451 | what one line, in either dialect, does to the end of the stream |
| StreamSafety.PingAfterDone | internal/server/compat_openai_stream.go:182-189 | a stream in which something follows [DONE]: a late ping event still sends a comment |
| StreamClosing.DoneIsLastIff | internal/server/compat_openai_stream.go:125-297 | if no write fails, in both dialects, [DONE] is the last write if and only if no line after the one that closed the stream emits anything; what a line emits is stated on its event type, its payload and whether the role was announced before |
| StreamClosing.LineSends | internal/server/compat_openai_stream.go:403-451 | a line that does not close the stream sends something exactly if it emits, never [DONE] |
| StreamBytes.BytesExact | internal/server/compat_openai_stream.go:211-276 | if no write fails, in both dialects and for every chunking, the client gets byte for byte a `data:` event with a blank line for every chunk the input lines cause and that can be printed, `: ping` and a blank line per ping, and one `data: [DONE]`, in the order of the lines; id, delta and finish reason are read off the input |
| StreamSink.NothingAfterFailure | internal/server/compat_openai_stream.go:299-306 | for every downstream: nothing is written after the first write that fails, headers precede every write, the stream counts as closed if and only if the downstream took the closing mark, and the bytes and, without a failure, the chunks counted are those written |
| StreamText.TextConserved | internal/server/compat_openai_stream.go:153-165 | if no write fails, the text a client reads out of the chunks is the text the upstream lines carry, in order, in both dialects |
| CompatStream.CompatStreamWriter.WriteHeader | internal/server/compat_openai_stream.go:77-81 | only the first status counts |
| CompatStream.CompatStreamWriter.Write | internal/server/compat_openai_stream.go:83-106 | Write in place handles the complete lines and keeps the rest, and stops at the first failed downstream write |
| CompatStream.CompatStreamWriter.NextLine | internal/server/compat_openai_stream.go:114-123 | the first complete line without its line end leaves the buffer, or nothing changes |
| CompatStream.CompatStreamWriter.HandleClaude | internal/server/compat_openai_stream.go:137-191 | the Claude line handler in place |
| CompatStream.CompatStreamWriter.HandleGemini | internal/server/compat_openai_stream.go:403-451 | the Gemini line handler in place |
| CompatStream.CompatStreamWriter.EmitChunk | internal/server/compat_openai_stream.go:211-245 | a chunk is sent in three writes, up to the first that fails, and counted |
| CompatStream.CompatStreamWriter.EmitDone | internal/server/compat_openai_stream.go:247-259 | the closing write, once |
| CompatStream.CompatStreamWriter.Finalize | internal/server/compat_openai_stream.go:278-297 | finalize in place handles the rest of the buffer and closes the stream, or writes the error page |
| Preflight.AcceptedConserves | internal/driver/codex.go:332-369 | an accepted stream reaches its reader byte for byte, for every way it is delivered and read, and at most 8192 bytes are buffered |
| Preflight.FirstEventStable | internal/driver/codex.go:40-53 | the first event found in a prefix is the first event of every extension |
| Preflight.FirstEventNearest | internal/driver/codex.go:40-53 | the first event ends with the first separator of either kind, and there is one if and only if there is a separator |
| Preflight.VerdictExpected | internal/driver/codex.go:332-369 | off the edge case the verdict is a function of the whole stream |
| Preflight.VerdictIndependentIff | internal/driver/codex.go:332-369 | the verdict is independent of the reads if and only if the stream does not end at 8192 bytes without a complete event and with an end that would not pass |
| Preflight.PreflightExpected | internal/driver/codex.go:308-369 | a response that is not a successful event stream passes untouched; on an event stream the verdict is the expected one, off the edge |
| PreflightLoop.FirstCompleteEvent | internal/driver/codex.go:40-53 | the loop over the two separators finds the nearest |
| PreflightLoop.ScanBody | internal/driver/codex.go:314-369 | the read loop in place gives the specified result and closes the body exactly if it is not handed on |
| CodexQuota.FamilyExact | internal/driver/codex_admin.go:154-165 | a family's cooldown is zero if and only if it is servable now, else the least time from now on at which it is |
| CodexQuota.ZeroIsAmbiguousIff | internal/driver/codex_admin.go:154-165 | for all clocks, exactly when zero and servable agree |
| CodexQuota.ServesExactly | internal/driver/codex_admin.go:259-274 | on the recorded numbers: a model is served if and only if neither window of its family, or of the flat fields for the standard family, is used up to 99 percent and still to be reset |
| CodexQuota.RecordedExactly | internal/driver/codex_support.go:69-98 | the recorded families are those of the map, or the standard family if there are none and any of the four flat numbers is positive |
| CodexQuota.CooldownExact | internal/driver/codex_admin.go:167-194 | the bucket's exhausted cooldown is none if and only if nothing is recorded or some recorded family is servable, else the least time at which some recorded family is servable |
| CodexQuota.CooldownAgreesWithEligibility | internal/driver/codex_admin.go:259-274 | until the bucket's cooldown no model of a recorded family could be served anyway |
| CodexQuota.RefusedThoughServable | internal/driver/codex_admin.go:259-274 | until a bucket's exhausted cooldown exactly these models are refused although they could be served: those of families nothing is recorded of, except a standard family whose exhausted legacy limits a family map hides |
| CodexQuota.ComputeExhaustedCooldown | internal/driver/codex_admin.go:167-194 | the early-returning loop computes the specified cooldown |
| CodexQuota.CaptureHeaders | internal/driver/codex_support.go:122-170 | the family map filled in place is the migrated map overridden by what was reported |
| CodexQuota.MigrationKeepsView | internal/driver/codex_support.go:69-98 | migration keeps the view of every family not reported, and records the reported and the legacy standard family |
| CodexQuota.RecaptureIsStable | internal/driver/codex_support.go:135-150 | the recorded families stay the same if and only if no legacy standard family was hidden behind a family map |
| RateLimiter.LimiterIsExact | internal/server/compat_rate_limit.go:38-99 | with a non-decreasing clock and each release called once, the limiter decides as one that remembers everything: no closed minute holds more than perMinute admissions, never more than concurrent are open, and inflight is the number open |
| RateLimiter.RunRefines | internal/server/compat_rate_limit.go:38-99 | after every history the table, with its deleted idle entries, refines the full history at any later time |
| RateLimiter.RunRemembers | internal/server/compat_rate_limit.go:38-99 | every decision of a legal run is the one made with the full history in sight |
| RateLimiter.TableForgets | internal/server/compat_rate_limit.go:73-98 | after a release its key is in the table if and only if a request is still open or an admission of the last minute is counted |
| RateLimiter.ReleaseFindsItsEntry | internal/server/compat_rate_limit.go:73-83 | the checks for a missing entry and a zero count are never needed |
| LimiterTable.RateState.KeepRecent | internal/server/compat_rate_limit.go:52-59 | filtering in place keeps exactly the times of the last minute, in order |
| LimiterTable.Limiter.Acquire | internal/server/compat_rate_limit.go:38-71 | Acquire on mutable entries decides and updates as specified and leaves other keys alone |
| LimiterTable.Limiter.Release | internal/server/compat_rate_limit.go:73-98 | the release closure on mutable entries, deleting an idle entry |
| LimiterTable.NewLimiter | internal/server/compat_rate_limit.go:21-36 | there is no limiter if and only if neither limit is positive; a limit that is not positive does not limit |
| CacheControl.EnforceExact | internal/driver/claude_identity.go:244-304 | afterwards the marks in preorder are those of before without ttl and without the first in excess, messages before system, and the rest of the body is unchanged |
| CacheControl.EnforceMarks | internal/driver/claude_identity.go:244-304 | mark by mark: a block keeps its mark, without its ttl and otherwise as it was, if and only if it had one and at least as many marks come before it as are in excess |
| CacheControl.EnforceKeepsRest | internal/driver/claude_identity.go:244-304 | the body has the fields it had; but for the marks of their blocks, messages and system hold what they held, and every other field is unchanged |
| CacheControl.BlocksOfList | internal/driver/claude_identity.go:260-288 | the blocks of a list in preorder: each object with its `cache_control`, if it has one, followed by the blocks of its `content` |
| CacheControl.EnforceCount | internal/driver/claude_identity.go:244-258 | exactly min(total, max(0, maxBlocks)) marks remain |
| CacheControl.SlotsDetermine | internal/driver/claude_identity.go:290-304 | the marks in preorder and the tree without them determine the tree, so nothing else can have changed |
| CacheWalk.StripAndCount | internal/driver/claude_identity.go:260-271 | the walk strips every ttl and counts every mark |
| CacheWalk.RemoveControls | internal/driver/claude_identity.go:273-288 | the walk removes the first marks up to its budget and returns what is left of it |
| CacheWalk.EnforceCacheControl | internal/driver/claude_identity.go:244-258 | the whole pruning, loop by loop, is as specified |
| AffinityNamespace.DecodeEncode | internal/relay/relay_request.go:78-83 | a decoder inverts the length-prefixed encoding for every list of parts |
| AffinityNamespace.NamespaceInjective | internal/relay/relay_request.go:65-84 | two names are equal if and only if user, provider, normalised surface, kind and trimmed raw key are, provided the hash tells the encodings apart |
| AffinityNamespace.NamelessIffBlank | internal/relay/relay_request.go:65-84 | there is no name if and only if the raw key consists of spaces, provided the hash does not come out empty |
| AffinityNamespace.NameSpelled | internal/relay/relay_request.go:65-84 | otherwise it is the hash of the length-prefixed version, user, provider, surface, kind and trimmed raw key, in this order |
| AffinityNamespace.SurfaceNamed | internal/relay/relay_request.go:65-84 | a surface is recognised in any case and between any spaces, and everything else is none |
| AffinityNamespace.BuildRouteAffinityKey | internal/relay/relay_request.go:65-84 | the loop over parts builds the specified name, and an empty raw key gives none |

## Left out

- PoolState: store writes always succeed, nobody else writes the database, and the store keeps whole seconds without truncating them further.
- PoolState: the provider and update-time columns of quota buckets, and hydration of proxy and identity columns, which no modelled decision reads.
- PoolState: egress cells are read by selection but their own operations (saving, cooling, clearing a cell) are not modelled.
- PoolState: events, log lines and the callback on authentication failure.
- PoolRekeying.ReportReachesAllIff: is stated for a reported quota that no loaded bucket holds, nor the default.
- PoolMigration.SetDriversKeepsQuotasIff: is stated while loaded buckets hold different quotas, none of them the default; buckets with equal quotas may also be merged without anybody noticing.
- Selection: the square root is an arbitrary non-negative function and scores are real numbers, so float rounding of ties is not captured.
- Selection: string helpers treat characters as ASCII bytes; Unicode spaces and case folding are not captured.
- RouteProtocol: the 64-bit wrap-around of the route sequence, and errors of the store or of the request context inside AcquireRoute other than a cancelled wait.
- RouteTable: a wait on a claim is the outcome Await of one pass through the lock region; the loop around it is in the transition system.
- Relay: preparing the request, tokens, transport, tracing and request logs; the panic paths of an attempt; a transport error's cooldown of the egress cell.
- StreamWriter: JSON parsing and printing are arbitrary functions, header values are not modelled, and the two writer structs are one class with a dialect.
- StreamWriter: the counter of content chunks feeds a log record only, and nothing is claimed of it.
- Preflight: codexSSECapacityPattern is an arbitrary function of the bytes, a read that returns neither bytes nor an end is excluded, and header capture on refusal is part of the relay's effect.
- CodexQuota: parsing of header names and numbers, JSON, the mapping from models to families and the priority figures; utilisation is a real number.
- CacheControl: nested maps are values, so the deletion of keys through shared references is not captured; decoded JSON shares nothing.
- AffinityNamespace: the hash is an arbitrary function.
- Beta headers, pricing, model catalogues, dashboards, OAuth flows and the user interface: presentation or foreign calls.
