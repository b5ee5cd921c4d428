# Verified models of the platform library's hard cores

This project models, in Dafny, six components of a Go platform library and proves what
they promise over every input, every run or every reachable state.

- **Idempotency** (`Idempotency*.dfy`). Any number of concurrent `Do` calls on any keys
  share a store whose records expire and a per-key lock. Every action is one access to
  store, lock or clock, so time may pass between any two of them, also between a locked
  check and the write it guards; reads, writes and locks may fail anywhere, a failed write
  may have landed, and an execution may die at any point. `Idempotency` holds the protocol
  and its invariant, `IdempotencySafety` the theorems, `IdempotencyReruns` when exactly work
  can run again, `IdempotencyPolicy` what failing open would cost, and `IdempotencyManager` the code of `Do` in the order of its statements,
  whatever its store and lock calls answer.
- **Batching** (`GroupCommit*.dfy`, `Buffer*.dfy`, `Accumulators.dfy`, `Ordering.dfy`).
  Group commit and the coalescing buffer as protocols over regions under the mutex, channel
  operations and write calls, with any number of submitters, takers and `Close` calls; the
  theorems over their runs; the regions as classes whose methods carry out protocol actions;
  the accumulators as classes against a fold; and in `GroupCommitWrites` what a write
  receives, with and without `WithMerge` and `WithOrder`.
- **Roles** (`Roles.dfy`, `RoleExpansion.dfy`). The three-colour cycle detector and the
  memoised inheritance closure as classes that update their maps in recursion, against
  reachability.
- **HTTP cache** (`HttpCache*.dfy`). Sections 3 and 4 of RFC 9111 as the transport follows
  them: `HttpCache` what is computed from one message or entry, `HttpCachePolicy` the loops
  over header fields, `HttpCacheRuns` any number of interleaved round trips and the
  invariant of the store, `HttpCacheSafety` what every answer satisfies, `HttpCacheServing`
  that what is stored is served exactly while fresh, `HttpCacheVariants` which requests an
  answer reaches where it varies, `HttpCacheTerms` what the decisions come to in the words of
  the headers, and `HttpCacheHeap` the transport over
  entry and header objects with a store that keeps live pointers.
- **Jobs** (`Pool.dfy`, `PoolWorkers.dfy`, `Scheduler.dfy`, `Cadence.dfy`). The worker pool's
  drain, leased ticks on any number of replicas, and when a calendar job fires.
- **Bytes** (`ByteSet.dfy`, `ByteSetText.dfy`, `Checker.dfy`, `Utf8.dfy`). The four-word
  byte set, its rendering, the one-pass checker, and cutting UTF-8 text.

`Prelude.dfy` holds what several modules share. `dafny verify dfyconfig.toml` checks the
whole project.

## What is assumed

- The idempotency lock excludes, ClaimIDs are fresh, records have one version, and the
  store loses entries only by expiry and delete. Theorems are stated for FailClosed;
  `OnlyFailOpenCollides` says that this is exactly what the main one needs.
- A failed store write lands at once or never, and an execution that dies frees its lock at
  once.
- A key, by which items merge or in a buffer, equals itself, and merge keys are totally
  ordered. That leaves out NaN, which Go's ordered types admit: each arrival under one gets
  an entry of its own, which collecting then misses.
- Clocks do not run backwards, and replicas share one.
- The lock service behind the scheduler grants a lease only while nobody holds an unexpired
  one, and answers "not held" to a release after expiry.
- SHA-256 in the cache key is injective: keys are the hashed material. A printed URL holds
  no NUL. How a Cache-Control directive, a Vary list, a date or an integer is spelled is a
  parameter: any functions from strings to parsed values.
- A hash map's iteration order, which Go leaves open, is an arbitrary choice.

## Where the code and its documentation differ

- The comment on `originTime` means lifetimes to count from the origin, and rules out Dates
  that would extend them. The Age's seconds are multiplied without a check, so one that does
  not fit a Duration wraps: 9223372037 dates a response 292 years ahead, and 18446744074, an
  age of 584 years, is read as less than a second (`TwoAgesThatExtend`). `HitIsWithinLifetime`
  is the promise where the numbers fit; `OnlyOverflowsOverstay` gives the exact condition
  under which a response can be served past the end its header states, and
  `OnlyDatedAheadIsHeldPast` that under which it is served when held for longer than its
  lifetime.
- The documentation of the idempotency counters says that the four outcomes sum to all
  calls, and that of the cache that each round trip records one outcome. Failed work and
  transport errors record none. Neither sum is claimed here.
- `Do` is introduced as running its work at most once per key. `WorkRunsTwice` is a run in
  which two calls of one key and fingerprint both run theirs to the end. `RunsAgainExactly`
  says when that can happen: from the moment the work returned a result to record, it can
  start again at an instant if and only if the claim, or the result's TTL counted from that
  moment, is over by then. `StartsExactly` says it of any key in any state of any run, and
  `RunsAgainOnlyAfter` what has become of the result when it does.
- The comment on `matches` says that a request differing in a field the response varies on is
  a miss and never gets another's representation. Fields are compared by their first value
  only, while section 4.1 of RFC 9111 compares them whole: what was answered for the languages
  en and fr, a line each, is served for en and de (`GermanGetsFrench`). `WrongVariantExactly`
  is the exact condition, and `OneLineIsEnough` the promise where each field is one line.
- The comment on `storable` says that no cookie is stored. That holds of responses stored in
  full. A 304 is folded in whatever it says, so an entry holds a Set-Cookie if and only if a
  304 behind it had one (`CookiesComeWithRefreshes`).

## What a caller might expect, and does not get

- A second concurrent `Close` of a group commit or a buffer may return before the first has
  written the last batch. `SecondCloseReturnsFirst` shows such a run of each; `CloseLeavesNothing`
  and `CloseEmpties` say that this is exactly when something is left to write.

## Model

| member | source | states |
|---|---|---|
| `Idempotency.RunKeeps` | idempotency/manager.go:127-200 | Every interleaving of every number of `Do` calls, clock advances, failures and crashes keeps the protocol invariant: locks are held from inside their regions, an unexpired claim's slot holds exactly its record, and completed records hold what a recordable run returned |
| `IdempotencySafety.OverlapOnlyAfterExpiry` | idempotency/manager.go:248-286 | Two runs of the work on one key are in progress together only if the claim granted first had already expired when the second was granted |
| `IdempotencySafety.WorkStartsWithClaim` | idempotency/manager.go:164-181 | The work starts only in the step that, under the key's lock and with nothing visible, wrote a fresh in-flight record that is then visible |
| `IdempotencySafety.ForeignRecordsUntouched` | idempotency/manager.go:320-377 | Whatever changes or deletes a visible record is the execution whose own unsettled claim that record is, also when claims expire between check and write |
| `IdempotencySafety.SettledAtMostOnce` | idempotency/manager.go:181-199 | Over any run an execution carries out at most one of commit's write and release's delete |
| `IdempotencySafety.CommittedIsStable` | idempotency/manager.go:320-357 | Once a completed record is visible, no run of any executions changes or deletes it before its TTL |
| `IdempotencySafety.CommittedAnswersEveryone` | idempotency/manager.go:162-180 | While a committed result stands, a call that has no claim yet never runs the work: it replays that value to the same fingerprint, reports a mismatch to another, or fails |
| `IdempotencySafety.ClaimAnswersEveryone` | idempotency/manager.go:162-240 | While some execution holds an unexpired claim, any other call on its key without one is refused as in flight if it asks for the same, told of a mismatch if it asks for something else, or fails; it never runs the work |
| `IdempotencySafety.ReplayHasSource` | idempotency/manager.go:210-240 | Every replayed value was returned by a recordable run of the work under the same key and fingerprint |
| `IdempotencyReruns.CommitFate` | idempotency/manager.go:320-357 | Over any run, a result to be recorded waits under its claim, or was recorded, or its commit ended in vain: the caller died, the lock or the read failed, the claim had expired, or the write failed; the record, or else the claim left behind, stands unchanged until it expires |
| `IdempotencyReruns.RunsAgainOnlyAfter` | idempotency/manager.go:114-200 | After the work returned a result to record, it starts again on its key only once the claim has expired with the result unrecorded, its commit still to come or in vain, or the record's TTL is over |
| `IdempotencyReruns.ReachesWork` | idempotency/manager.go:162-181 | In any state a call whose key is unlocked can get to its work if nothing is visible under the key, and under FailOpen whatever is |
| `IdempotencyReruns.StartsExactly` | idempotency/manager.go:114-377 | From any state of any run, work on a key can start at an instant if and only if the key is not blocked then: it is when its visible record lasts beyond it and nobody holds the claim but an execution about to record a result that lasts beyond it too |
| `IdempotencyReruns.RunsAgainExactly` | idempotency/manager.go:114-200 | From the moment the work returned a result to record, its claim unexpired, work on the key can start again at an instant if and only if the claim, or the result's TTL from that moment, is over by then |
| `IdempotencyReruns.WorkRunsTwice` | idempotency/manager.go:114-200 | A run in which two calls of one key and fingerprint both run the work to its end, the first answered with its result |
| `IdempotencyPolicy.OnlyFailOpenCollides` | idempotency/manager.go:418-463 | Some run has two works on one key with both claims unexpired if and only if the policy is FailOpen |
| `IdempotencyPolicy.FailOpenCollides` | idempotency/manager.go:418-463 | The run that shows it |
| `IdempotencyManager.Manager.Claim` | idempotency/manager.go:248-286 | Takes the claim if and only if lock, re-read and write are answered and the re-read misses, stamped at the write; returns the record if and only if the re-read finds one; otherwise an error, with the in-flight record stored exactly when a failed write landed; the lock is free again |
| `IdempotencyManager.Manager.StillOurs` | idempotency/manager.go:385-409 | Goes on to write if and only if the read is answered and the visible record bears the caller's ClaimID; otherwise the call ends, unlocked, with nothing written |
| `IdempotencyManager.Manager.Settle` | idempotency/manager.go:320-377 | Commits or deletes exactly when lock and read are answered, the visible record is the caller's own claim and the write takes effect; otherwise leaves the store as it was; no failure changes the answer |
| `IdempotencyManager.Manager.Invoke` | idempotency/manager.go:294-312 | If the work returned, nothing is written and the claim is left to `Do`; if it panicked, the deferred call has called release once, which deletes the caller's own record only |
| `IdempotencyManager.Manager.RunClaimed` | idempotency/manager.go:181-199 | However the work ends, exactly one of commit and release is called, and the key ends recorded, deleted or untouched by the value, the time taken and what the store answers |
| `IdempotencyManager.Manager.Do` | idempotency/manager.go:127-240 | A record read answers: a mismatch for another fingerprint, else a refusal while in flight and its value once completed. The work runs if and only if both reads miss, or fail under FailOpen, and the claim is taken; then its own answer is returned, it is settled once, and the key ends recorded, released or left to expire; otherwise it does not run and nothing is settled |
| `IdempotencyManager.Manager.RetryReplays` | idempotency/manager.go:127-240 | A retry within the TTL of a recorded result gets exactly that value, a different request under the key a mismatch; the work runs a second time if and only if both reads fail open and the claim is written |
| `GroupCommit.RunKeeps` | batching/groupcommit.go:122-301 | Every run with any submitters, closers and write results keeps the batcher's invariant |
| `GroupCommitSafety.OneWriteInFlight` | batching/groupcommit.go:159-258 | While a `Close` writes, neither the flusher nor another `Close` does |
| `GroupCommitSafety.BatchFate` | batching/groupcommit.go:190-258 | Every joined batch is in exactly one of open, being written and released, and its done channel is closed at most once, with its error set |
| `GroupCommitSafety.OpenIsNeverStranded` | batching/groupcommit.go:159-239 | While a batch is open, a wake token is present, or the flusher is about to take, or it stopped and a `Close` is waiting to take |
| `GroupCommitSafety.NilMeansWritten` | batching/groupcommit.go:122-135 | `Submit` of something returns nil only after a successful write made from a batch whose arrivals contain its items in a row |
| `GroupCommitSafety.WaiterGetsItsResult` | batching/groupcommit.go:122-135 | A waiting `Submit` can be answered once its batch is released and not before, and its answer is the result of the write made from that batch |
| `GroupCommitSafety.OthersAreAnsweredAtOnce` | batching/groupcommit.go:122-135 | A refused `Submit` is answered with the shutdown error, and one of nothing with nil, without joining |
| `GroupCommitSafety.CancelOnlyStopsWaiting` | batching/groupcommit.go:131-134 | A caller can give up whenever it waits, which changes nothing but its own answer |
| `GroupCommitSafety.JoinAppends` | batching/groupcommit.go:190-212 | A `Submit` of something can join: its items go to the end of the open batch and a wake token is left, or it is refused once closed |
| `GroupCommitSafety.ItemsStay` | batching/groupcommit.go:122-135 | On every run a submission's items stay those the caller gave |
| `GroupCommitSafety.FlusherIsSentFor` | batching/groupcommit.go:216-239 | The flusher moves only for a token, which it takes, or for stop; it then takes out what is open |
| `GroupCommitSafety.NothingEmptyIsWritten` | batching/groupcommit.go:266-274 | Whatever the shape, no write on any run receives an empty slice |
| `GroupCommitSafety.ErrClosedMeansNothingAccepted` | batching/groupcommit.go:190-212 | A refused submission never joined, and what was accepted is exactly the items of those that did |
| `GroupCommitSafety.EveryWaiterCanBeReleased` | batching/groupcommit.go:159-258 | From every reachable state the flusher and the closers alone can release every batch |
| `GroupCommitSafety.CloseLeavesNothing` | batching/groupcommit.go:159-185 | Once any `Close` has returned no batch is open, and every batch is released if and only if no other `Close` is still writing; then every batch was written |
| `GroupCommitSafety.SecondCloseReturnsFirst` | batching/groupcommit.go:159-185 | A run in which a `Close` has returned while another has the last batch still to write |
| `GroupCommitSafety.NothingAcceptedAfterClose` | batching/groupcommit.go:190-196 | After the closing region nothing is ever accepted again |
| `GroupCommitWrites.NothingLostOrReordered` | batching/groupcommit.go:190-293 | Without merge, over any run, everything written, then what is in flight, then what is open, is exactly everything accepted, each item as often; without order also in join order |
| `GroupCommitWrites.EveryWriteIsSorted` | batching/groupcommit.go:266-270 | With an order and no merge, each write receives one batch's arrivals sorted by it, ties in order of arrival |
| `GroupCommitWrites.NilMeansItemsWritten` | batching/groupcommit.go:122-135 | Without merge, in whatever order, `Submit` returns nil only after a successful write that received every item, as often as it was submitted |
| `GroupCommitWrites.NilAccountsForEveryItem` | batching/groupcommit.go:122-135 | With a merge key, in whatever order, that write carried, for each submitted item, the fold over its key's arrivals, the item among them |
| `GroupCommitWrites.UnmergedInput` | batching/groupcommit.go:266-270 | However a batch's items came in submissions, adding them to the slice accumulator, collecting and sorting gives the shape those results are about |
| `GroupCommitWrites.MergedInput` | batching/groupcommit.go:266-270 | The same with the keyed accumulator |
| `GroupCommitBatcher.Batcher.Join` | batching/groupcommit.go:190-212 | The batch object returned is the one that will be taken, holds the items after its earlier arrivals and a wake token is left; once closed, a completed batch that carries the shutdown error |
| `GroupCommitBatcher.Batcher.Await` | batching/groupcommit.go:127-134 | The wait on the batch object ends with the result of that batch's write, the shutdown error, or the cancellation |
| `GroupCommitBatcher.Batcher.Take` | batching/groupcommit.go:216-224 | The open batch object is swapped out, carrying out the protocol's take |
| `GroupCommitBatcher.Batcher.Flush` | batching/groupcommit.go:248-258 | The error is set before the done channel is closed, and that channel was not closed before |
| `GroupCommitBatcher.Batcher.CloseRegion` | batching/groupcommit.go:159-185 | After the flusher ended, the batcher is closed and its open batch taken, in one region |
| `GroupCommitBatcher.Batcher.FinalFlush` | batching/groupcommit.go:159-185 | The last batch's waiters are released once, and `Close` returns that write's result |
| `Ordering.SortKeys` | batching/batching.go:99-106 | The keys of a set in strictly increasing order, each once |
| `Ordering.SortedIsUnique` | batching/batching.go:99-106 | There is only one such order |
| `Ordering.SortStableSorts` | batching/groupcommit.go:268-270 | The sort by `WithOrder` keeps every item, puts them in order, and leaves those the order cannot tell apart as they came |
| `Accumulators.KeyedAccumulator.Add` | batching/batching.go:82-97 | However arrivals are chunked, the map holds one entry per key seen, the left fold of merge over that key's arrivals, or the last of them without merge |
| `Accumulators.FoldMeans` | batching/batching.go:82-97 | That fold, spelled out: each arrival merged, in order, into what came before, from the first on; without merge the last |
| `Accumulators.FilterMeans` | batching/batching.go:82-97 | The arrivals of a key are exactly those with it, each once and in order |
| `Accumulators.KeyedAccumulator.Collect` | batching/batching.go:99-106 | One item per key seen, in strictly increasing key order, each that fold |
| `Accumulators.CollectedIsUnique` | batching/batching.go:82-109 | What is emitted, and its order, is determined by the arrivals |
| `Accumulators.EveryArrivalIsFiled` | batching/batching.go:82-109 | Every arrival is among those its key's entry folds |
| `Buffer.RunKeeps` | batching/buffer.go:124-374 | Every run with any adders, takers and closers keeps the buffer's invariant |
| `Buffer.ArrangedExact` | batching/buffer.go:355-374 | In whatever order `takeLocked` returns them, they are, without repetition, the requested keys that were pending |
| `Buffer.TakeKeysOneMore` | batching/buffer.go:355-374 | Without an order they come as asked for: one more request adds its key at the end, if pending and not asked for before |
| `BufferSafety.InFlightSetNeverOverwritten` | batching/buffer.go:307-335 | A published in-flight set stays as it is until its own flush, its write over, clears it |
| `BufferSafety.OneFlushAtATime` | batching/buffer.go:212-229 | A final flush excludes the flusher's and every other closer's |
| `BufferSafety.EveryEntryLeavesOnce` | batching/buffer.go:278-374 | Per key, entries into pending equal departures by `Take` results and by write calls, but for the one still pending or about to be written |
| `BufferSafety.AddedIsPending` | batching/buffer.go:124-151 | While open every key of an `Add` is pending right after it and counts as an entry if it was not; once closed they are only counted as dropped |
| `BufferSafety.AddLeavesTheRest` | batching/buffer.go:124-151 | Keys an `Add` does not name are pending or not as before |
| `BufferSafety.TakeGoesRound` | batching/buffer.go:166-170 | A `Take` of nothing returns nothing at once; any other starts its rounds |
| `BufferSafety.RoundIsOpen` | batching/buffer.go:166-191 | A round of `Take` waits on the current flush if and only if it carries one of its keys, and can otherwise succeed |
| `BufferSafety.WaitEnds` | batching/buffer.go:183-189 | A waiting `Take` can give up at any time, taking nothing, and tries again when woken |
| `BufferSafety.TakeIsExact` | batching/buffer.go:166-191 | The instant `Take` succeeds none of its keys is pending or in flight, and its result is the duplicate-free list of those that were pending |
| `BufferSafety.TakenKeysStayOut` | batching/buffer.go:166-191 | From the instant a `Take` succeeds, on any run, none of the keys it named is pending, in flight or written until it is added again |
| `BufferSafety.TakesWhatItReturns` | batching/buffer.go:166-191 | Over any run a `Take` removed from pending exactly the keys it returned, each once |
| `BufferSafety.CancelledTakesNothing` | batching/buffer.go:183-189 | Over any run a `Take` that ended cancelled removed nothing |
| `BufferSafety.TakerIsNeverStuck` | batching/buffer.go:166-191 | A waiting `Take` waits on a real channel that was announced once or belongs to the flush under way |
| `BufferSafety.TakerCanBeWoken` | batching/buffer.go:166-191 | From every reachable state whoever is flushing can finish alone and wake a waiting `Take` |
| `BufferSafety.CloseEmpties` | batching/buffer.go:212-229 | Once any `Close` has returned nothing is pending, and every entry ever made was taken or written if and only if no flush still has keys to write |
| `BufferSafety.SecondCloseReturnsFirst` | batching/buffer.go:212-229 | A run in which a `Close` has returned while another has the last keys still to write |
| `BufferSafety.StaysEmpty` | batching/buffer.go:124-137 | After that nothing ever becomes pending again |
| `BufferRegions.AddLocked` | batching/buffer.go:124-151 | The loop that files keys: pending gains exactly the keys added |
| `BufferRegions.TakeLocked` | batching/buffer.go:355-374 | The deletion loop returns each requested pending key once, in the buffer's order or else in request order, and leaves the rest pending |
| `BufferRegions.AnyFlushing` | batching/buffer.go:339-351 | Finds whether any requested key is in flight |
| `BufferRegions.Regions.Add` | batching/buffer.go:124-151 | While open, pending gains exactly the keys, and each new one counts as an entry; once closed nothing is filed and each is counted as dropped; leaves a wake token exactly when keys were filed and the buffer is then full |
| `BufferRegions.Regions.TakeRound` | batching/buffer.go:166-191 | Waits on the current flush if and only if it carries a requested key; otherwise takes exactly the pending ones, in the buffer's order |
| `BufferRegions.Regions.TakeForFlush` | batching/buffer.go:307-325 | All pending keys become the in-flight set with a new channel, and go to the write once each and in the buffer's order; with none pending nothing changes |
| `BufferRegions.Regions.FinishFlush` | batching/buffer.go:328-335 | The in-flight set is cleared and its channel announced, exactly once |
| `Roles.RankedIsAcyclic` | authorization/policy.go:183-222 | If finishing order ranks every role above its parents, no chain of Inherits steps returns to its start |
| `Roles.CycleWithin` | authorization/policy.go:193-199 | A walk that ends at a role already on it contains a genuine cycle as its tail |
| `Roles.FinishedIsClear` | authorization/policy.go:193-199 | A search from a finished role meets neither itself nor the path that led there, so skipping it loses nothing |
| `Roles.CycleWalker.Walk` | authorization/policy.go:192-211 | Finds exactly what searching every chain without marks finds first; either the walk returned ends in a cycle, or the role is finished and everything still being visited is as before; it terminates because unvisited names decrease |
| `Roles.CycleWalker.WalkParents` | authorization/policy.go:203-207 | If no parent's walk fails, every parent is finished |
| `Roles.DetectCycles` | authorization/policy.go:183-222 | When all parents are defined: nil if and only if the graph is acyclic; an error's path ends in a genuine cycle, and is the very one that searching every chain from every role, in order of name and without marks, meets first |
| `Roles.SameCycleEveryRun` | authorization/policy.go:213-219 | A policy with several cycles reports the same one on every run |
| `RoleExpansion.IndexRoles` | authorization/policy.go:105-115 | Indexes the roles by name if names are non-empty and distinct; otherwise says truly which rule is broken |
| `RoleExpansion.CheckParents` | authorization/policy.go:117-127 | Nil if and only if every parent is another role of the policy; otherwise names a parent that is not |
| `RoleExpansion.ValidateRoles` | authorization/policy.go:101-130 | Accepts exactly the policies with non-empty distinct names, known parents and no cycle, and every error it returns is true of the policy |
| `RoleExpansion.EffectiveUnfolds` | authorization/policy.go:152-172 | A role is effectively granted its own non-empty permissions and what its parents are, and nothing else |
| `RoleExpansion.NeverOnOwnPath` | authorization/policy.go:152-172 | In an acyclic policy no role on the recursion's path is asked for again, so no partial memo entry is read |
| `RoleExpansion.NewPermissionSet` | authorization/authorization.go:37-46 | Holds exactly the non-empty permissions given |
| `RoleExpansion.Expander.Resolve` | authorization/policy.go:152-172 | Returns exactly the non-empty permissions of all roles reachable from the name, although partial sets are published in the memo before the parents are resolved |
| `RoleExpansion.ExpandInheritance` | authorization/policy.go:140-179 | Succeeds exactly on accepted policies, and maps every role to exactly the non-empty permissions of all roles reachable by zero or more Inherits steps |
| `RoleExpansion.DeclarationOrderIsIrrelevant` | authorization/policy.go:140-179 | Declared in any other order, a policy is accepted if and only if it was before, and expands to the same permissions |
| `RoleExpansion.NewGrants` | authorization/grants.go:50-62 | Keeps exactly the sets that grant something; without any, denies everything |
| `RoleExpansion.Has` | authorization/grants.go:80-91 | True if and only if everything is allowed, or the permission is non-empty and some set holds it |
| `RoleExpansion.RolesAllow` | authorization/grants.go:50-91 | Grants over the expanded sets of assigned roles allow a permission if and only if some assigned role reaches a role that grants it |
| `HttpCache.KeyIsInjective` | httpclient/cachetransport.go:210-222 | Requests have one key if and only if they have one method, URL and credential |
| `HttpCache.StoringKeepsFreshness` | httpclient/cachedresponse.go:93-104 | Dropping connection fields changes nothing freshness is computed from |
| `HttpCache.FitsExactly` | httpclient/cachepolicy.go:203-205 | A number of seconds fits a Duration if and only if it is at most 9223372036 either way |
| `HttpCache.OriginIsAsStated` | httpclient/cachepolicy.go:197-208 | With an Age that fits, the origin time computed is the Date less the Age, or receipt without a usable Date, and never after receipt |
| `HttpCache.OverflowingAges` | httpclient/cachepolicy.go:203-205 | One second past the range moves the date 292 years ahead, and twice as many move it by less than a second |
| `HttpCache.DatedAheadExactly` | httpclient/cachepolicy.go:197-208 | A response is dated after its receipt if and only if its Age overflowed by more than its Date lies back |
| `HttpCachePolicy.FlatMeans` | httpclient/cachepolicy.go:66-98 | Several fields of one name are read one after another, in order, and each whole |
| `HttpCachePolicy.DirectivesMean` | httpclient/cachepolicy.go:66-98 | A flag is on if and only if some directive in some field names it, and a lifetime is that of the last numeric directive of its kind, none without one |
| `HttpCachePolicy.ParseCacheControl` | httpclient/cachepolicy.go:66-98 | The nested loops compute that from every field |
| `HttpCachePolicy.VaryMeans` | httpclient/cachepolicy.go:103-122 | A response is unkeyable if and only if some field lists "*"; otherwise its fields are the non-empty names listed |
| `HttpCachePolicy.ReadVary` | httpclient/cachepolicy.go:103-122 | The loop that stops at the first "*" computes that |
| `HttpCachePolicy.ReadVaryValues` | httpclient/cachedresponse.go:225-237 | Records the request's first value for each field the response varies on |
| `HttpCachePolicy.CheckVary` | httpclient/cachedresponse.go:159-167 | True if and only if the request agrees on the first value of every recorded field |
| `HttpCacheRuns.NewEntryIsOk` | httpclient/cachetransport.go:314-356 | A response just stored says what the origin said, with freshness of the header as stored |
| `HttpCacheRuns.RefreshedIsOk` | httpclient/cachetransport.go:284-310 | A 304 to the entry's own validators keeps its status, body and variant, merges the header, and leaves freshness the function of the merged header |
| `HttpCacheRuns.RunKeeps` | httpclient/cachetransport.go:159-356 | Over every interleaving of lookups, clock reads, wire answers, writes and evictions, every stored or held entry is one full storable response for its key, with the 304s that confirmed it folded in, and `FreshUntil` the function of its own header, receipt and date |
| `HttpCacheSafety.AnswersOnlyWhatTheOriginSaid` | httpclient/cachetransport.go:159-310 | Every answer from the cache has the status and body of an earlier full response to a request with the same method, URL and credential that agreed on the first value of every field that response varies on |
| `HttpCacheSafety.RevalidatedByItsOwn304` | httpclient/cachetransport.go:258-310 | An answer after a 304 was confirmed by the 304 to this very request, sent with the stored entry's validators and no other difference |
| `HttpCacheSafety.HitIsFresh` | httpclient/cachepolicy.go:220-243 | A hit is never on a no-cache entry or for a request that asked to revalidate, and comes before the instant the entry's own header allows |
| `HttpCacheSafety.HitAgeIsBelow` | httpclient/cachedresponse.go:196-221 | A hit under s-maxage or max-age of at least a second reports an Age strictly below it, overflow or not |
| `HttpCacheSafety.HitIsWithinLifetime` | httpclient/cachepolicy.go:197-243 | If the Age of the exchange that dated the entry fits, and the stated lifetime is no negative number that overflows, a hit comes before that lifetime has passed since the origin is stated to have answered, and, where the lifetime fits, reports the time since then as its Age |
| `HttpCacheSafety.HeldTooLongOnlyIfDatedAhead` | httpclient/cachepolicy.go:197-243 | On every run, an entry held for its lifetime or longer is served only if the last exchange's Age overflowed so far as to date it after its receipt |
| `HttpCacheSafety.EndMoves` | httpclient/cachepolicy.go:197-243 | The end computed for an entry is the stated one moved by the turns of 64 bits lost in multiplying out its Age and its lifetime |
| `HttpCacheSafety.OverstaysOnlyIfExtended` | httpclient/cachepolicy.go:197-243 | On every run, with any refreshes, a hit at or after the end its header states is on an entry whose Age loses more turns than its lifetime, and which those put past its receipt |
| `HttpCacheSafety.FittingNeverExtends` | httpclient/cachepolicy.go:197-208 | Numbers that fit a Duration never do |
| `HttpCacheSafety.FieldsComeFromTheOrigin` | httpclient/cachedresponse.go:178-188 | Each field of an entry's header is, value for value, that of the last exchange to state it, Content-Length that of the full response, and none belongs to a connection |
| `HttpCacheServing.FetchStores` | httpclient/cachetransport.go:314-356 | A cacheable request's response is stored if and only if it may be, says how long it is good for or how to ask, and fits |
| `HttpCacheServing.AskServes` | httpclient/cachetransport.go:159-184 | A request whose key and variant have an entry is answered with it, asking nobody, if and only if it is fresh and the request accepts that |
| `HttpCacheServing.EntryServesWhileFresh` | httpclient/cachetransport.go:159-184 | Whatever run stored it, the entry of a response is served to every request of its key and variant exactly until the instant its header, Age and Date allow |
| `HttpCacheServing.ServedExactlyWhileFresh` | httpclient/cachetransport.go:159-200 | A response worth keeping is served to every request of its key and variant exactly until the instant its header, Age and Date allow |
| `HttpCacheServing.OnlyOverflowsOverstay` | httpclient/cachepolicy.go:197-243 | Some run serves a stored response at or after the end its header states if and only if its Age loses more turns of 64 bits than its lifetime, and those turns put that end past its receipt |
| `HttpCacheServing.TwoAgesThatExtend` | httpclient/cachepolicy.go:203-205 | Ages 9223372037 and 18446744074 do so, and only the first by dating the response after its receipt |
| `HttpCacheServing.OnlyDatedAheadIsHeldPast` | httpclient/cachepolicy.go:197-243 | Some run serves it when held for its lifetime or longer if and only if its Age overflowed so far as to date it after its receipt |
| `HttpCacheVariants.FirstsDecide` | httpclient/cachedresponse.go:159-167 | A fresh answer reaches a request for the same URL and credential on some run if and only if the first values of the varying fields agree |
| `HttpCacheVariants.WrongVariantExactly` | httpclient/cachedresponse.go:152-167 | One representation is served for another on some run if and only if some varying field differs and none differs in its first value |
| `HttpCacheVariants.OneLineIsEnough` | httpclient/cachedresponse.go:152-167 | On every run, an answer is for the very values asked with where both requests put each varying field on at most one line, not an empty one |
| `HttpCacheVariants.GermanGetsFrench` | httpclient/cachedresponse.go:152-167 | What was answered for en and fr is served for en and de |
| `HttpCacheTerms.CacheableMeans` | httpclient/cachepolicy.go:130-150 | The cache is for a GET or HEAD with none of the six conditional fields, no no-store, and no credential unless allowed |
| `HttpCacheTerms.StorableMeans` | httpclient/cachepolicy.go:163-183 | A response may be stored if and only if it has one of the eight statuses, lists neither no-store nor private, varies on no "*" and sets no cookie |
| `HttpCacheTerms.MustRevalidateMeans` | httpclient/cachepolicy.go:155-159 | A request insists on the origin's word by no-cache or a last max-age of nothing |
| `HttpCacheTerms.FreshUntilMeans` | httpclient/cachepolicy.go:220-243 | Never under no-cache; else by the last s-maxage, else the last max-age, from the origin time; else Expires; else the configured time from receipt |
| `HttpCacheTerms.OnlyTheAllowedIsServed` | httpclient/cachepolicy.go:130-183 | On every run, whatever is answered from the cache goes back to a response that listed neither no-store nor private, set no cookie and had one of the eight statuses, for requests the cache is for |
| `HttpCacheTerms.OnlyTheAllowedIsStored` | httpclient/cachetransport.go:314-356 | On every run, so does whatever is stored |
| `HttpCacheTerms.StoresExactlyTheAllowed` | httpclient/cachetransport.go:314-356 | A round trip that found nothing stores its response if and only if it is such a one, says how long it is good for or how to ask, and fits |
| `HttpCacheTerms.HitIsAllowed` | httpclient/cachetransport.go:169-184 | On every run, a hit is for a request that did not insist, on an entry without no-cache, before the end that its s-maxage, max-age, Expires or the configured time gives, in that order |
| `HttpCacheTerms.OthersPassThrough` | httpclient/cachetransport.go:159-167 | A request the cache is not for goes out as it is and touches no entry |
| `HttpCacheTerms.LookFinds` | httpclient/cachetransport.go:229-250 | Looking finds what is stored under the key, unless the store cannot be read or a first value differs |
| `HttpCacheTerms.StaleIsChecked` | httpclient/cachetransport.go:169-281 | What is not answered at once is asked with the entry's validators, if it has any, and otherwise as it is |
| `HttpCacheTerms.CheckIsAnswered` | httpclient/cachetransport.go:195-310 | A 304 has the entry served and written back with its fields folded in; any other response is passed on and stored if it may be |
| `HttpCacheTerms.WriteEnds` | httpclient/cachetransport.go:299-302 | The round trip ends with its answer whether or not the write lands |
| `HttpCacheTerms.AgeMeans` | httpclient/cachedresponse.go:196-221 | The Age served is the time since the origin time in whole seconds, as far as a Duration counts |
| `HttpCacheTerms.CookiesComeWithRefreshes` | httpclient/cachedresponse.go:178-188 | An entry holds a Set-Cookie if and only if a 304 behind it had one |
| `HttpCacheHeap.HeaderMap.Storable` | httpclient/cachedresponse.go:93-104 | A new header map with every field but the connection's own |
| `HttpCacheHeap.CachedResponse.Clone` | httpclient/cachedresponse.go:116-129 | A new entry with a new header map, equal by value |
| `HttpCacheHeap.CachedResponse.Refresh` | httpclient/cachedresponse.go:178-188 | The loop folds in the 304's storable fields but Content-Length, in whatever order they come, and re-dates the entry |
| `HttpCacheHeap.CachedResponse.ToResponse` | httpclient/cachedresponse.go:196-221 | A new response with a new header map whose Age is the one reached |
| `HttpCacheHeap.Transport.Lookup` | httpclient/cachetransport.go:229-250 | What the store holds for the request's key and variant, as a new object, even when the store returns the live pointer |
| `HttpCacheHeap.Transport.Revalidated` | httpclient/cachetransport.go:284-310 | Stores and serves the refreshed entry, shares no header between them, and changes no entry ever handed to the store |
| `HttpCacheHeap.Transport.MaybeStore` | httpclient/cachetransport.go:314-356 | Stores exactly the responses worth it as new objects, leaves the caller's response alone, and changes no entry ever handed to the store |
| `HttpCacheHeap.Transport.RoundTrip` | httpclient/cachetransport.go:159-200 | On objects does what the model by value says, and changes no entry ever handed to the store |
| `HttpCacheHeap.Transport.Serve` | httpclient/cachetransport.go:159-200 | Taken by value, the store afterwards is the one before with the entry the model by value writes, if any, and the answer is the one it gives |
| `HttpCacheHeap.Transport.CallerSets` | httpclient/cachedresponse.go:196-221 | A caller's write to any header it was ever given reaches no entry |
| `HttpCacheHeap.Transport.Session` | httpclient/cachetransport.go:229-310 | Over any sequence of round trips, callers' writes and evictions, no entry handed to the store before it ever changes |
| `Pool.RunKeeps` | jobs/pool.go:270-475 | Every run, also with submissions after the consumer returned, keeps the pool's invariant |
| `Pool.NewPoolServes` | jobs/pool.go:270-278 | A new pool has Concurrency idle workers, nothing submitted and no stop |
| `Pool.SubmitIsOpen` | jobs/pool.go:386-427 | A `submit` can be taken by any idle worker, and refused exactly once the pool was told to stop |
| `Pool.WorkerSteps` | jobs/pool.go:437-475 | A worker tries until an attempt succeeds; whenever it stops, the message ends processed if the last did, and otherwise as the dead-letter configuration and its result say |
| `Pool.ShutdownOrder` | jobs/pool.go:299-339 | `Run` waits for stop, the consumer and the workers in that order, and no worker leaves before the consumer returned |
| `Pool.DrainIsComplete` | jobs/pool.go:270-339 | When done closes, every message whose `submit` returned nil was ended exactly once, processed, dead-lettered, dead-letter-failed or dropped as configured; a refused one never, and only after stop |
| `Pool.NothingAfterDone` | jobs/pool.go:386-427 | After done no message is accepted and no end revised |
| `Pool.AtMostConcurrencyHeld` | jobs/pool.go:270-278 | At most Concurrency accepted messages are unfinished at once |
| `PoolWorkers.Workers.Process` | jobs/pool.go:437-475 | The message is processed if and only if some attempt succeeded, and otherwise ends as the dead-letter configuration and its result say; attempts are counted, and no other message is touched |
| `PoolWorkers.Workers.Drain` | jobs/pool.go:270-371 | From every reachable state the pool's own shutdown order can reach done, with every accepted message ended exactly once |
| `Scheduler.RunKeeps` | jobs/scheduler.go:509-575 | Every run of any ticks on any replicas keeps the lease invariant |
| `Scheduler.OverlapNeedsExpiry` | jobs/scheduler.go:509-575 | Two runs of one job overlap only after the lease of the one that acquired first expired, before the other was granted |
| `Scheduler.NoOverlapWithinLeases` | jobs/scheduler.go:509-575 | If no run outlives its lease, no two runs of one job overlap |
| `Scheduler.OverlapIsReported` | jobs/scheduler.go:553-572 | Of two overlapping runs, the one that acquired first ends counted as lease-expired if its release is answered, and never as released |
| `Scheduler.EveryTickIsCountedOnce` | jobs/scheduler.go:534-547 | Every tick that asked for its lease is exactly one of run, skipped and acquire error |
| `Scheduler.Replicas.Lock` | distributedlock/distributedlock.go:37-41 | A lease is granted if and only if the service answers and no unexpired one exists, and lasts its TTL from then |
| `Scheduler.Replicas.RunTick` | jobs/scheduler.go:509-575 | Whatever other ticks do while the job runs: leased for the job's own TTL, or the default if it has none; skipped exactly when another's lease is live, lease-expired exactly when the run took that long or longer, released otherwise with the key free |
| `Cadence.RunScheduled` | jobs/scheduler.go:410-438 | For any schedule at all: each tick is for the next instant after the clock reading that led to it, begins no earlier than both, and the following reading comes after it ended; the loop ends when no fire time is left |
| `Cadence.InOrder` | jobs/scheduler.go:410-438 | Ticks of one job on one replica never overlap, and no instant is fired twice |
| `Cadence.FiredUnlessMissed` | jobs/scheduler.go:403-438 | Up to the last one fired, a fire time is fired if and only if it did not pass while the loop was busy with an earlier one |
| `Cadence.FiresOnlyWhenDue` | jobs/scheduler.go:410-438 | Nothing but the schedule's own instants after the start is fired for |
| `Cadence.OverrunCostsAFireTime` | jobs/scheduler.go:585-604 | The instant after one that fired is fired if and only if the clock was read again before it; a run counted as an overrun of its window always cost it |
| `Cadence.Registry.Stage` | jobs/scheduler.go:269-300 | Accepts exactly the batches of valid jobs with new and distinct names, into a map of their own; otherwise names the first job that is invalid or whose name is taken |
| `Cadence.Registry.Register` | jobs/scheduler.go:262-305 | The whole batch or nothing of it, and nothing once running |
| `ByteSet.Range` | charset/set.go:22-29 | Holds exactly the bytes from lo to hi, 255 included, none when they are reversed |
| `ByteSet.Bytes` | charset/set.go:39-46 | Holds exactly the bytes listed |
| `ByteSet.Union` | charset/set.go:49-59 | Holds exactly what one of the sets holds |
| `ByteSet.Without` | charset/set.go:62-70 | Holds exactly what the set holds and no other does |
| `ByteSet.ContainsAll` | charset/set.go:84-92 | True if and only if every byte of the text is in |
| `ByteSet.SameMembersSameSet` | charset/set.go:73-75 | Sets with the same members are the same four words |
| `ByteSetText.Render` | charset/set.go:109-148 | The run-scanning loop writes exactly the set's runs, in order, in brackets |
| `ByteSetText.EscapeMeans` | charset/set.go:150-164 | A byte is written as itself, behind a backslash if it is one of four, or as two hexadecimal digits |
| `ByteSetText.ChunkMeans` | charset/set.go:127-142 | A run is hyphenated from three bytes on |
| `ByteSetText.RoundTrip` | charset/set.go:109-164 | What `String` writes decodes to exactly the set's members |
| `ByteSetText.RenderingIsInjective` | charset/set.go:109-164 | Different sets never render alike |
| `Checker.New` | charset/charset.go:34-52 | Options apply in order, and a separator is in neither alphabet |
| `Checker.OptionsMean` | charset/charset.go:56-118 | Each setting is that of the last option to speak of it; without one a text must not be empty, may be of any length and has no separator |
| `Checker.SplitJoins` | charset/charset.go:119-155 | Splitting is the inverse of joining, and no piece holds the separator |
| `Checker.Scan` | charset/charset.go:134-154 | The one-pass loop accepts if and only if there are not too many pieces and every piece is good |
| `Checker.ValidSegment` | charset/charset.go:160-175 | True if and only if the segment is non-empty with an allowed first byte and then only body bytes |
| `Checker.Valid` | charset/charset.go:119-155 | Agrees with splitting on the separator and checking every piece, the number of pieces and the total length |
| `Checker.SeparatorSeparates` | charset/charset.go:97-110 | An accepted text is its pieces joined by the separator, each non-empty, good and free of it |
| `Utf8.TruncateUTF8` | charset/truncate.go:20-34 | A prefix within the limit; of valid text, the longest valid one, at most three bytes short of the limit when it cuts |
| `Utf8.BoundaryIsValidPrefix` | charset/truncate.go:20-34 | A prefix of valid text is valid if and only if it ends at a rune boundary |
| `Utf8.IsText` | httpclient/statuserror.go:135-147 | True if and only if dropping at most three bytes from the end leaves valid text |
| `Utf8.PrefixOfTextIsText` | httpclient/statuserror.go:135-147 | Accepts every byte prefix of every valid text |
| `Utf8.ValidIffEncoded` | charset/truncate.go:20-34 | The validity this rests on: text is valid if and only if it encodes some sequence of character numbers that are not surrogates and at most 10FFFF |

## Left out

- Metrics, spans, logging, options, configuration and dependency wiring: no state the properties speak of.
- Idempotency key and fingerprint validation before a call starts, records of another version, and mixed fleets: they end a call early or are excluded by assumption.
- Guarantees under FailOpen beyond the one shown to fail.
- Liveness that depends on a fair scheduler: what is proved is that release, drain and wake-up are always possible, not that they happen in time.
- How `slices.SortFunc` sorts: an insertion sort stands in for it, and an order is taken to be one, total and transitive up to ties.
- `IsSubsetOf`, `Equal`, JSON forms and evaluation of several permissions at once: easy set facts.
- How header text is split, trimmed, canonicalised and parsed: parameters of the model. Slices of values inside a header map are values, so aliasing is modelled for maps and entries only; a nil map and an empty one are not told apart.
- The cached body's bytes: shared and only read, an opaque value; reading a body up to the cap is a predicate on it.
- `HttpCacheHeap.Transport.RoundTrip`: one round trip at a time; interleavings are those of `HttpCacheRuns`, whose steps its parts carry out.
- `HttpCacheHeap.Transport.Serve`: likewise one round trip at a time.
- `IdempotencyManager.Manager.Do`: one call at a time, with any failures; other calls in between are in the protocol, whose steps its parts carry out.
- `IdempotencyManager.Manager.RetryReplays`: two calls one after the other, the first of which was recorded; calls in between are in `CommittedAnswersEveryone`.
- The retry policy of the pool, handler timeouts and panics: an attempt succeeds or fails.
- Cron expressions, time zones, and the ticker of interval jobs: `Cadence` covers calendar jobs with any schedule, and in `Scheduler` ticks come at any time.
- Every other package of the repository: providers, wrappers and small utilities with little logic of their own.
