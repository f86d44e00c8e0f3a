# OpenSecret backend: a verified model

A Dafny model of the stateful core of the OpenSecret backend, with proofs about every run of it.
`dafny verify dfyconfig.toml` checks the whole project.

What is modelled, by file:

- `RecencyList.dfy`, `LeaseCache.dfy`, `LeaseRuns.dfy`, `LeaseTheorems.dfy`: the lease-aware session
  cache (a fixed-capacity LRU list with sliding deadlines, pinned by leases that are dropped in two
  steps) and the purge pass that takes one snapshot and retires it in batches, with any other
  operation in between.
- `BoundedCache.dfy`, `BoundedRuns.dfy`: the bounded cache of pending attestations, against a ledger
  of every insertion and an unbounded map.
- `Tinfoil.dfy`, `TinfoilRecovery.dfy`, `TinfoilRequests.dfy`: the recovery protocol of the Tinfoil transport, as tasks with
  program counters that share a client slot, an attempt counter, a gate and a claim flag.
- `CanonicalEncoding.dfy`, `SeedWrapping.dfy`: the tag-length-value encoding under every MAC input and
  associated-data string, and the seed wraps built on it.
- `Credentials.dfy`, `CredentialRuns.dfy`, `CredentialTheorems.dfy`, `CredentialExact.dfy`: registration, login, password
  change and destructive reset, with their reads, preparations and commits interleaved in any order.
- `Routing.dfy`: weighted provider routing on 32-bit arithmetic.
- `OAuthStore.dfy`: the store of OAuth `state` values, with clock readings in any order.
- `Instructions.dfy`, `Pagination.dfy`: the instruction table, its transactions and its keyset
  pagination.

How things are represented:

- Objects that the source updates in place are classes whose methods change their fields; each method
  is proved equal to a function on values, and runs are sequences of events over those functions.
- Time is a natural number passed as a parameter. The two secret caches read it under their lock, so
  their readings never go back; the purge cutoff is an older reading; the OAuth store's readings come
  in any order.
- The cache lock keeps operations apart, but not lease drops: they go on between the moment the lock is
  taken and the operation under it. `seen` is the set of slots the checks of one operation answered
  "leased" for. It contains every slot still leased at the operation and only slots that were leased
  when the lock was taken; every theorem holds for every such set.
- Runs of the credential tables start from any tables in order, empty ones or ones that already hold
  users with a password wrap and OAuth wraps side by side.
- A byte is plain, or one byte of a MAC named by its key label and message; sealing is a constructor.
  So MACs and ciphertexts do not collide, while injectivity of the messages themselves is proved from
  the bytes that the encoder emits. Salted password hashes do not repeat.
- Each database transaction is one atomic step; a failed one leaves the tables as they were.

Where a promise fails: with a TTL of zero a purge pass can leave an expired, unleased entry that it
never looked at (`ZeroTtlEscapesPurge`); `PurgeAccountsIffTtl` shows that a positive TTL is exactly the
condition. The survival bounds of both caches are sharp (`PushedOut` in each).

## Model

| member | source | states |
|---|---|---|
| `LeaseCache.EvictionIndex` | src/lease_aware_cache.rs:143-152 | the victim is the least recent entry whose check said unleased; there is none exactly when all were found leased |
| `LeaseCache.LiveEvictionMeansNoReclaimable` | src/lease_aware_cache.rs:143-163 | a live entry is evicted only when no entry found unleased has expired |
| `LeaseCache.ScanIsFilter` | src/lease_aware_cache.rs:248-259 | the scan that stops at the first live entry returns exactly the expired unleased keys of the whole list, least recent first |
| `LeaseCache.RetireIsFilter` | src/lease_aware_cache.rs:267-290 | the survivors of a batch are all other entries, in their old order |
| `LeaseCache.RetiredExactly` | src/lease_aware_cache.rs:267-290 | the retired entries are exactly the batch members still expired and unleased, and the sizes add up |
| `LeaseCache.InsertAnswers` | src/lease_aware_cache.rs:123-167 | each answer exactly: duplicate when the key is present, all leased when the cache is full and every entry was found leased, inserted when there was room |
| `LeaseCache.InsertStores` | src/lease_aware_cache.rs:123-167 | a success leaves the value, unleased, in a new slot in front with a fresh deadline; at most one entry is lost, the least recent found unleased, reported as reclaimed exactly when due; a failure changes nothing |
| `LeaseCache.AcquireExact` | src/lease_aware_cache.rs:176-195 | which slot is handed out and when none is; one more holder is counted and nothing moves; a due entry found unleased is dropped |
| `LeaseCache.TouchExact` | src/lease_aware_cache.rs:202-222 | when a touch succeeds; the entry is then in front with a fresh deadline and the others behind it in their order |
| `LeaseCache.LeaseAwareTtlCache.constructor` | src/lease_aware_cache.rs:105-110 | a new cache is empty with its capacity and TTL |
| `LeaseCache.LeaseAwareTtlCache.FindUnleased` | src/lease_aware_cache.rs:143-152 | the scan loop finds the eviction victim |
| `LeaseCache.LeaseAwareTtlCache.InsertEvictingAt` | src/lease_aware_cache.rs:123-167 | the in-place insertion has the outcome and new state of the value-level one: duplicate refused, room used, else the victim replaced, else all-leased error; the cache stays well formed |
| `LeaseCache.LeaseAwareTtlCache.AcquireAt` | src/lease_aware_cache.rs:176-195 | acquiring counts a lease on the looked-up slot, or drops an expired unleased entry, and moves nothing |
| `LeaseCache.LeaseAwareTtlCache.TouchAt` | src/lease_aware_cache.rs:202-222 | touching refreshes the deadline and moves the entry to the front, or drops an expired unleased entry |
| `LeaseCache.LeaseAwareTtlCache.ExpiredUnleasedKeysAt` | src/lease_aware_cache.rs:248-259 | the breaking loop computes the snapshot |
| `LeaseCache.LeaseAwareTtlCache.RetireExpiredCandidatesAt` | src/lease_aware_cache.rs:267-290 | the loop revalidates and detaches a batch |
| `LeaseRuns.ReleaseKeeps` | src/lease_aware_cache.rs:83-88 | the first half of a drop never underflows the counter and keeps the invariant |
| `LeaseRuns.DropKeeps` | src/lease_aware_cache.rs:83-88 | the second half of a drop never frees a slot the cache holds, and keeps the invariant |
| `LeaseRuns.UnleasedHasNoHandle` | src/lease_aware_cache.rs:53-57 | a slot that may be reported unleased has no outstanding lease, not even one between the two halves of its drop |
| `LeaseRuns.StepKeeps` | src/lease_aware_cache.rs:123-290 | every event keeps the invariant: recency order is deadline order, leases are resident, counters are exact, the pass accounts for every expired entry |
| `LeaseRuns.RunKeeps` | src/lease_aware_cache.rs:123-290 | the invariant holds in every reachable state of every interleaving |
| `LeaseRuns.HoldBegan` | src/lease_aware_cache.rs:53-57 | every lock hold began with the lock being taken, only lease drops happened since, and what is leased now was leased then |
| `LeaseTheorems.LeaseResidency` | src/lease_aware_cache.rs:53-88 | in every run the slot behind an outstanding lease is what its key looks up, with the value seen at acquisition |
| `LeaseTheorems.LeaseUnchanged` | src/lease_aware_cache.rs:176-195 | over any run a lease keeps its slot, key and value |
| `LeaseTheorems.LeaseHolderTouches` | src/lease_aware_cache.rs:202-222 | while a lease is outstanding a touch of its key succeeds whatever the clock and the checks say, and leaves the entry in front with a fresh deadline |
| `LeaseTheorems.TouchAfterAcquireSucceeds` | src/main.rs:1885-1960 | after an acquisition, any run that does not drop the lease leaves the same session in place, so the later touch cannot fail |
| `LeaseTheorems.InsertThenAcquire` | src/main.rs:1849-1864 | what an insertion stored is handed out with its value by an acquisition before the deadline, after any run that puts no more pressure on it than it survives |
| `LeaseTheorems.SnapshotExact` | src/secret_cache_maintenance.rs:34-37 | the snapshot lists exactly the keys expired at the cutoff and found unleased, least recent first, and changes nothing |
| `LeaseTheorems.RetireStepExact` | src/secret_cache_maintenance.rs:42-47 | one lock hold removes exactly the batch members expired at the cutoff and found unleased, none of them really leased, at most 4096, and counts them |
| `LeaseTheorems.PurgeAccounts` | src/secret_cache_maintenance.rs:20-53 | after a pass with anything in between, the total is the number of slots removed, each once and expired at the cutoff; with a positive TTL every entry still expired at the cutoff had an outstanding lease when the lock was taken for the snapshot or batch check that kept it |
| `LeaseTheorems.ZeroTtlEscapesPurge` | src/secret_cache_maintenance.rs:34-47 | with a zero TTL an expired entry can escape a pass though nothing was ever leased |
| `LeaseTheorems.PurgeAccountsIffTtl` | src/secret_cache_maintenance.rs:20-53 | that only entries leased when checked remain expired holds over all runs exactly when the TTL is positive |
| `LeaseTheorems.PurgeExpiredSessions` | src/secret_cache_maintenance.rs:32-53 | the batch loop, under any schedule of other operations between batches, returns the number of entries its own lock holds removed, and only entries leased when checked remain expired |
| `LeaseTheorems.SeenWasLeased` | src/lease_aware_cache.rs:53-57 | a check finds leased only slots that had an outstanding lease when its lock was taken |
| `LeaseTheorems.AllLeasedIsTrue` | src/lease_aware_cache.rs:149-152 | when an insertion is refused because all entries are leased, each entry of a full cache had an outstanding lease when its lock was taken |
| `LeaseTheorems.Survival` | src/lease_aware_cache.rs:123-222 | an unexpired entry survives any run with at most capacity - 1 - leased later insertions and touches of other keys, no further back than their number |
| `LeaseTheorems.PushedOut` | src/lease_aware_cache.rs:143-163 | and one fresh key more than that pushes it out of a full cache: with the pinned entries behind it, an entry is gone after one insertion more than there are free entries behind it |
| `BoundedCache.TailIsFilter` | src/bounded_ttl_cache.rs:121-148 | in deadline order the counted tail is exactly the expired entries, and the rest keep their order |
| `BoundedCache.LiveEvictionMeansNothingExpired` | src/bounded_ttl_cache.rs:77-91 | the oldest entry is evicted live only when nothing has expired |
| `BoundedCache.InsertExact` | src/bounded_ttl_cache.rs:65-97 | each answer of an insertion exactly, the value in front with a fresh deadline, and the others behind it but for the one replaced or pushed out |
| `BoundedCache.TakeExact` | src/bounded_ttl_cache.rs:104-112 | a take removes the entry whatever its deadline and answers with its value only before it |
| `BoundedCache.BoundedTtlCache.constructor` | src/bounded_ttl_cache.rs:49-56 | a new cache is empty with its capacity and TTL |
| `BoundedCache.BoundedTtlCache.InsertEvictingAt` | src/bounded_ttl_cache.rs:65-97 | the in-place insertion has the outcome and new state of the value-level one: replaced, inserted, expired reclaimed or oldest evicted |
| `BoundedCache.BoundedTtlCache.TakeLiveAt` | src/bounded_ttl_cache.rs:104-112 | a take removes the entry and returns its value only before the deadline |
| `BoundedCache.BoundedTtlCache.RetireExpiredAt` | src/bounded_ttl_cache.rs:121-148 | the loop retires the expired tail, oldest first, each value wiped before it leaves |
| `BoundedRuns.RunKeeps` | src/bounded_ttl_cache.rs:65-148 | in every run each insertion is in exactly one place (resident or one recorded fate), size stays within capacity, deadlines follow recency |
| `BoundedRuns.FateIsFinal` | src/bounded_ttl_cache.rs:104-148 | a fate never changes over any run: nothing is taken twice and nothing comes back |
| `BoundedRuns.FateExact` | src/bounded_ttl_cache.rs:65-148 | each event gives an entry exactly the fate that its kind and the clock say, or leaves it in |
| `BoundedRuns.TakeMatchesUnbounded` | src/bounded_ttl_cache.rs:104-112 | a take succeeds exactly when the unbounded map holds a live latest value for the key that was not evicted for space, and returns that value |
| `BoundedRuns.InsertOnValues` | src/bounded_ttl_cache.rs:65-97 | numbering insertions is faithful: inserting a number and reading its value is inserting the value |
| `BoundedRuns.TakeOnValues` | src/bounded_ttl_cache.rs:104-112 | the same for takes |
| `BoundedRuns.RetireOnValues` | src/bounded_ttl_cache.rs:121-148 | the same for retirement |
| `BoundedRuns.RunMatchesValues` | src/bounded_ttl_cache.rs:65-148 | a whole run on numbers is the run on values: same entries at the end, same answers of all takes |
| `BoundedRuns.Survival` | src/bounded_ttl_cache.rs:65-97 | an untaken unexpired entry survives capacity - 1 later insertions |
| `BoundedRuns.PushedOut` | src/bounded_ttl_cache.rs:77-91 | and one more fresh key than that pushes it out |
| `Tinfoil.SecureTinfoilTransport.TakeSnapshot` | src/provider_client.rs:294-300 | a snapshot pairs the installed client with the attempt counter |
| `Tinfoil.SecureTinfoilTransport.ClaimBackgroundInitialization` | src/provider_client.rs:302-306 | a claim succeeds exactly when the flag was down, and raises it |
| `Tinfoil.SecureTinfoilTransport.ReleaseClaim` | src/provider_client.rs:177-204 | releasing a claim makes it claimable again |
| `Tinfoil.SecureTinfoilTransport.TryRefreshGate` | src/provider_client.rs:377-381 | the gate is taken exactly when it was free |
| `Tinfoil.SecureTinfoilTransport.InstallAndRelease` | src/provider_client.rs:325-375 | a successful initialization installs the client, moves the counter and drops the claim in one write |
| `Tinfoil.SecureTinfoilTransport.ApplyRefresh` | src/provider_client.rs:383-455 | a refresh installs or empties the slot and moves the counter either way |
| `Tinfoil.StepKeeps` | src/provider_client.rs:302-455 | every step of every task keeps gate, claim, snapshots and recovery in order |
| `Tinfoil.RunKeeps` | src/provider_client.rs:302-455 | so does every interleaving |
| `Tinfoil.NoLostRecovery` | src/provider_client.rs:302-455 | whenever the slot is empty exactly one claim owner will still discover or some task has yet to try the claim; discoveries never overlap |
| `Tinfoil.SnapshotCoherence` | src/provider_client.rs:383-455 | a snapshot of the installed client carries the current counter, a previous-attempt failure is never concluded, no client is refreshed twice, a retry never goes to the client that failed |
| `Tinfoil.RecoveryWithinReach` | src/provider_client.rs:308-375 | from every reachable state without a client some continuation installs one |
| `TinfoilRecovery.RankAfter` | src/provider_client.rs:302-455 | with no client installed every step of the gate holder, the claim owner or a task nearest to the claim lowers a rank; no other task and no new request raises it; a failed discovery raises it by three |
| `TinfoilRecovery.SomeoneCanStep` | src/provider_client.rs:302-455 | with no client installed one of these tasks can always take a step that is no failure |
| `TinfoilRecovery.RecoveryIsBounded` | src/provider_client.rs:302-455 | while no client is installed these tasks take at most rank steps plus four per failed discovery, whatever else happens |
| `Tinfoil.RetryDelayClosedForm` | src/provider_client.rs:249-251 | the retry delays are the powers of two capped at thirty seconds |
| `TinfoilRequests.DelaysFollow` | src/provider_client.rs:325-375 | over every run an initializer that has failed n times has slept the first n delays and goes on with delay number n |
| `TinfoilRequests.AttemptCounts` | src/provider_client.rs:325-455 | the attempt counter counts, modulo 2^64, how often the slot was filled or emptied |
| `TinfoilRequests.RequestIsSent` | src/provider_client.rs:581-597 | a request that finds a client is sent on a snapshot of it; one that finds none tries the claim first |
| `TinfoilRequests.FailureStartsRefresher` | src/provider_client.rs:599-621 | a request that cannot connect waits for a refresher of its own snapshot |
| `TinfoilRequests.RefresherAnswer` | src/provider_client.rs:383-455 | over every run a refresher hands back a snapshot of the client it discovered or of another client it found installed, and nothing only when the gate was busy, its discovery failed or the slot was empty |
| `TinfoilRequests.RetryOnDiscovered` | src/provider_client.rs:622-632 | a request whose refresher discovers a client is retried on that client: over every run it waits for the answer or retries on it, until it is sent or times out |
| `TinfoilRequests.RequestEnds` | src/provider_client.rs:581-651 | a request ends only by being sent or timing out, or because no client was there at its snapshot, or because its refresher had none |
| `CanonicalEncoding.DecodeEncode` | src/encrypt.rs:164-210 | decoding an encoded field list gives the list back |
| `CanonicalEncoding.EncodeDecode` | src/encrypt.rs:164-210 | only encodings decode |
| `CanonicalEncoding.EncodingInjective` | src/encrypt.rs:164-210 | two field lists with lengths below 2^32 and the same bytes are the same list |
| `CanonicalEncoding.I32FieldInjective` | src/encrypt.rs:188-194 | two's-complement integer fields are injective |
| `CanonicalEncoding.FieldBytes` | src/encrypt.rs:200-210 | a field is its tag, its length with the most significant byte first, and its payload |
| `CanonicalEncoding.I32FieldBytes` | src/encrypt.rs:188-190 | the four bytes of an integer field are its two's complement |
| `CanonicalEncoding.CanonicalBytes.constructor` | src/encrypt.rs:169-175 | a builder starts with its domain as the first field |
| `CanonicalEncoding.CanonicalBytes.AppendField` | src/encrypt.rs:200-210 | appending adds exactly one field to what the bytes encode |
| `SeedWrapping.MessageInjective` | src/seed_wrapping.rs:87-233 | the five MAC inputs and the associated data are injective in all arguments and pairwise disjoint |
| `SeedWrapping.BindingsDisjoint` | src/seed_wrapping.rs:87-129 | no password binding equals an OAuth binding |
| `SeedWrapping.ResetCodeExact` | src/seed_wrapping.rs:167-180 | two reset-code MACs agree exactly when project, user and code do |
| `SeedWrapping.ComputePasswordAuthBinding` | src/seed_wrapping.rs:87-108 | the builder steps produce the MAC of exactly these facts |
| `SeedWrapping.ComputeOAuthAuthBinding` | src/seed_wrapping.rs:110-129 | the builder steps produce the MAC of exactly these facts |
| `SeedWrapping.ComputePasswordLookupHash` | src/seed_wrapping.rs:131-144 | the builder steps produce the MAC of exactly these facts |
| `SeedWrapping.ComputeOAuthLookupHash` | src/seed_wrapping.rs:146-165 | the builder steps produce the MAC of exactly these facts |
| `SeedWrapping.ComputeResetCodeMac` | src/seed_wrapping.rs:167-180 | the builder steps produce the MAC of exactly these facts |
| `SeedWrapping.ComputeSeedWrapAad` | src/seed_wrapping.rs:220-233 | the builder steps produce the associated data of exactly these facts |
| `SeedWrapping.SeedWrapExact` | src/seed_wrapping.rs:182-206 | a sealed seed opens to itself under the same user, project, kind and binding, and under no other |
| `SeedWrapping.TryCandidates` | src/main.rs:1280-1298 | the loop skips other versions and returns the first candidate that opens |
| `SeedWrapping.DecryptSeedForAuthContext` | src/main.rs:1262-1299 | unwrapping returns a seed exactly when some version-1 row was sealed for the same user, project, kind and binding |
| `SeedWrapping.UnwrapOfCandidates` | src/models/user_seed_wrappings.rs:28-40 | asking for the user's rows of one kind loses nothing |
| `Credentials.Database.UpdateUserPasswordAndSeedWrap` | src/db.rs:960-991 | the statements of a change amount to a compare-and-swap of the verifier guarding the new wrap; a stale one changes nothing |
| `Credentials.Database.CompleteDestructivePasswordReset` | src/db.rs:1005-1104 | the statements of a reset consume the request, close the user's others, drop all wraps and install the new verifier and wrap; a refused one changes nothing |
| `Credentials.CandidatesDelete` | src/models/user_seed_wrappings.rs:69-82 | deleting one kind removes exactly the user's rows of that kind |
| `Credentials.UpsertInserts` | src/models/user_seed_wrappings.rs:121-141 | without an earlier row of the credential an upsert is an insert |
| `Credentials.UpsertReplaces` | src/models/user_seed_wrappings.rs:121-141 | with an earlier row of the credential an upsert replaces that row's ciphertext and nothing else |
| `CredentialRuns.StepKeeps` | src/db.rs:960-1104 | every read, preparation, commit, login and registration keeps the credential invariant |
| `CredentialRuns.RunKeeps` | src/db.rs:960-1104 | so does every interleaving |
| `CredentialTheorems.WrapFitsVerifier` | src/main.rs:1310-1349 | in every reachable state a user with a verifier has exactly one password wrap, it opens under the current binding and no other, and whatever opens, of either kind, is one seed |
| `CredentialTheorems.CommitChangeExact` | src/main.rs:2291-2322 | a change commits exactly when the verifier it read has not been replaced, and then the new wrap opens under the new verifier to the seed current at commit; otherwise the tables stay |
| `CredentialTheorems.StaleAfterCommit` | src/db.rs:968-990 | a change that had read before another change or reset of the user committed always fails and changes nothing |
| `CredentialTheorems.ChangeLeavesOthers` | src/db.rs:960-991 | a change alters no other user and nothing an OAuth context opens |
| `CredentialTheorems.IssuedOpensUnlessRetired` | src/main.rs:1621-1679 | a password context handed out earlier opens exactly as long as its verifier has not been replaced |
| `CredentialTheorems.RevokedForever` | src/db.rs:960-1104 | after a committed change or reset no earlier password context of the user ever opens again |
| `CredentialTheorems.ResetEndsOAuth` | src/db.rs:1005-1104 | after a committed reset no OAuth context of the user ever opens again |
| `CredentialTheorems.OAuthAcrossChangeAndReset` | src/db.rs:960-1104 | from tables with a user who has both kinds of wrap there is a run in which a change commits and the OAuth context still opens the same seed, and a reset after it ends the context |
| `CredentialTheorems.SeedSurvives` | src/main.rs:2291-2322 | over any run without a committed reset of the user, whatever opens gives the seed the user had before |
| `CredentialTheorems.ResetsUseFreshRequests` | src/db.rs:1022-1050 | every reset used its own request, and a later reset of the user used one created after the earlier commit |
| `CredentialExact.RegisteredOAuthOpens` | src/main.rs:1421-1529 | after an OAuth registration, over any run without a reset of the user, an OAuth context opens exactly when bound to the registered provider and subject, to the registered seed |
| `CredentialExact.RegisteredPasswordOpens` | src/main.rs:1310-1419 | after a password registration, over any run without a reset of the user, a password context opens exactly when bound to the registered project, identifier and login and the current verifier, to the registered seed |
| `CredentialExact.OAuthKept` | src/db.rs:960-991 | over any run without a reset of the user, through any number of changes, every OAuth context opens what it opened |
| `CredentialExact.CommitResetExact` | src/db.rs:1005-1104 | a reset commits exactly when its request is the user's, unused and unexpired; it leaves the new verifier, one wrap that opens to the new seed, the user's requests used up and all others as they were; a refused one leaves the tables |
| `CredentialExact.ResetLeavesOthers` | src/db.rs:1005-1104 | a reset leaves everything of every other user |
| `CredentialExact.RequestUsable` | src/main.rs:1962-2021 | over any run without a reset of its user a request is usable by that user exactly before its expiry, and by nobody else |
| `Routing.ShareOfBuckets` | src/provider_routing.rs:284-298 | every route but the last owns the floor of its share of the 100 buckets; the last owns the rest, at least its exact share and at most one bucket per other route more |
| `Routing.BeginAtMost` | src/provider_routing.rs:286-287 | no run begins past bucket 100, so the saturating subtraction never saturates |
| `Routing.BeginOrdered` | src/provider_routing.rs:284-298 | the runs are consecutive |
| `Routing.OwnerUnique` | src/provider_routing.rs:284-298 | no bucket has two owners |
| `Routing.OwnerExists` | src/provider_routing.rs:284-298 | every bucket has an owner |
| `Routing.StableAccountBucket` | src/provider_routing.rs:303-305 | a bucket is below 100, and an account below 100 is its own bucket |
| `Routing.BucketOnce` | src/provider_routing.rs:303-305 | among any hundred consecutive accounts every bucket has exactly one |
| `Routing.HundredAccounts` | src/provider_routing.rs:268-305 | among any hundred consecutive accounts a route is chosen exactly as often as it owns buckets |
| `Routing.SelectWeightedRoute` | src/provider_routing.rs:268-301 | the loop returns the owner of the account's bucket; it returns nothing exactly when the 32-bit total is zero, and its end is unreachable |
| `Routing.PercentScaleNoWrap` | src/provider_routing.rs:163-168 | with percent weights and fewer than 429,497 routes no 32-bit step wraps |
| `Routing.Eligibles` | src/provider_routing.rs:147-169 | the eligible list is empty exactly when no route is usable |
| `Routing.EligiblesExact` | src/provider_routing.rs:147-169 | the eligible routes are the usable ones in order, each with its provider's proxy and the product of the two weights, which fits 32 bits |
| `Routing.FindProvider` | src/provider_routing.rs:247-252 | the first configuration of a provider, none exactly when there is none |
| `Routing.SelectConfiguredRoute` | src/provider_routing.rs:139-209 | on the percent scale it fails exactly when no route is usable; the default provider's first eligible route wins; otherwise the owner of the bucket, marked as split or fallback |
| `OAuthStore.OAuthStateStore.constructor` | src/oauth.rs:55-62 | a new store is empty |
| `OAuthStore.OAuthStateStore.Store` | src/oauth.rs:72-97 | prune, refuse a new token when full, else insert or replace |
| `OAuthStore.OAuthStateStore.Consume` | src/oauth.rs:103-117 | prune, then remove the entry exactly when the whole state matches |
| `OAuthStore.RunKeeps` | src/oauth.rs:72-117 | the map holds exactly the stores that the history leaves alive, at most capacity many |
| `OAuthStore.ConsumeExact` | src/oauth.rs:103-117 | a callback is accepted exactly when the history leaves alive a store of that very state, which is then unique |
| `OAuthStore.StoreExact` | src/oauth.rs:72-97 | a store is refused exactly when its token has no living store and capacity others are alive |
| `OAuthStore.ConsumedOnce` | src/oauth.rs:103-117 | no store answers two callbacks |
| `OAuthStore.CallbacksAnswered` | src/oauth.rs:103-117 | every accepted callback was answered by an earlier store of its state, not replaced since and before its deadline |
| `Instructions.InstructionTable.CreateUserInstruction` | src/db.rs:2596-2614 | the create transaction with its rollback is the value-level one |
| `Instructions.InstructionTable.UpdateUserInstruction` | src/db.rs:2630-2660 | the update transaction with its rollback is the value-level one |
| `Instructions.InstructionTable.DeleteUserInstruction` | src/db.rs:2662-2684 | the delete is the value-level one |
| `Instructions.InstructionTable.SetDefaultUserInstruction` | src/db.rs:2761-2786 | the set-default transaction with its rollback is the value-level one |
| `Instructions.InstructionTable.UpdateProjectInstruction` | src/db.rs:2336-2391 | setting or clearing a project's instruction is the value-level one |
| `Instructions.DefaultsAfter` | src/db.rs:2596-2786 | every transaction leaves each user exactly the defaults a small reference says: the chosen one after set-default, the old one after a failure, others' untouched |
| `Instructions.CreateStores` | src/db.rs:2596-2614 | a create adds one row with exactly what was asked for; other rows change only by losing the default flag to it |
| `Instructions.UpdateStores` | src/db.rs:2630-2660 | an edit leaves in the targeted row exactly the requested name, prompt, tokens, flag and time; other rows change only by losing the default flag to it |
| `Instructions.SetDefaultStores` | src/db.rs:2761-2786 | choosing a default raises the flag of the targeted row and stamps it, keeping its contents |
| `Instructions.DeleteStores` | src/db.rs:2662-2684 | a deletion takes out the targeted row and no other |
| `Instructions.SetProjectStores` | src/db.rs:2337-2378 | a project's instruction is edited in place or added with exactly what was asked for, and no other row changes |
| `Instructions.ClearProjectStores` | src/db.rs:2379-2391 | after clearing no row of the user is left in the project and every other row stays |
| `Instructions.CreateSucceeds` | migrations/2025-09-06-221710_responses_api_core/up.sql:27-29 | the unique index on defaults never refuses a create: it succeeds exactly when the uuid is new, a row outside projects has a name, and a project row is no default and the first of its project |
| `Instructions.TargetedSucceeds` | src/db.rs:2630-2786 | edits, deletions and set-default succeed exactly when the user has that row outside projects |
| `Instructions.SetProjectSucceeds` | src/db.rs:2337-2378 | setting a project's instruction succeeds exactly when the user has a row there or the new row breaks no constraint |
| `Instructions.RunKeeps` | src/db.rs:2335-2786 | over every serial run a user has at most one default, outside projects |
| `Pagination.ListingExact` | src/db.rs:2697-2744 | a listing is strictly in order and holds exactly the user's rows outside projects past the cursor |
| `Pagination.OrderMeans` | src/db.rs:2732-2742 | up is by time and then by id, down is the reverse |
| `Pagination.ListingCut` | src/db.rs:2702-2730 | filtering past the cursor before sorting is cutting the sorted list there |
| `Pagination.NextPage` | src/db.rs:2702-2749 | from the last row of a page the next page starts at the next row |
| `Pagination.UnknownCursorRestarts` | src/db.rs:2702-2710 | an unknown cursor is ignored |
| `Pagination.FollowPages` | src/db.rs:2686-2749 | following the pages with any limit of at least 1 ends, and sees every listed row exactly once in order, both directions |

## Left out

- Building the HTTP request and what the provider answers: a request counts as sent once the network gave any answer other than a failure to connect on the first attempt.
- Task cancellation and panics in the Tinfoil protocol; a dropped claim is modelled as claimable again.
- Weak memory effects of atomics and reference counts, zeroization and the timing of deallocation: steps are sequentially consistent.
- The cryptographic algorithms themselves (AES-GCM-SIV, HKDF, HMAC, Argon2): constructors stand for them.
- Database isolation, foreign keys, account deletion and the wipe of unrelated tables in a reset.
- The existence check of the project before its instruction is edited, and the project's own columns.
- The reset code and secret check before a reset is prepared: a reset starts from an open request of the user that has not expired.
- Changes of a user's email or project and platform users: a user row changes only in its verifier.
- Adding an OAuth wrap to an existing user: only the source's own test code does it, so no event does; the tables at the start may hold such users.
- Token issuing and validation, HTTP, KMS, email, billing and the model and proxy tables: they would add only lookups; routing takes the resolved model and proxies as input.
- The unconfigured fallback completion route: a single-branch lookup.
- The purge of pending attestations inside the same maintenance pass: it is the bounded cache's own retirement step, `BoundedTtlCache.RetireExpiredAt`.
- Limits of 128-bit, 64-bit and clock arithmetic where the source aborts on overflow; the 64-bit attempt counter and the 32-bit routing arithmetic do wrap in the model.
