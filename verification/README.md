# Verified model of the identity service's core

A Dafny model of the parts of the identity service whose correctness is not
visible from one function body: a concurrent session cache, a bounded rate
limiter shared by two transports, a SCIM user store over a fallible repository,
retention arithmetic that wraps, the hosted-OAuth CSRF cookie, the request
pipeline from project resolution to the project guard, and three smaller
algorithms. Verify it with `dafny verify dfyconfig.toml`.

Code that changes state in place is modelled by classes and loops proved against
specification functions; the theorems are about those functions, over every
input, every run or every reachable state. Clocks, store and repository
outcomes, map iteration order, what other writers do and the interleaving of
threads are parameters or steps, so a theorem holds for all of them unless its row
names an order or a delay.

| files | component |
|---|---|
| `SessionProtocol`, `SessionSafety`, `SessionTheorems`, `SessionStaleness`, `SessionSpacing`, `SessionCache` | session revocation cache: step machine, invariant, theorems, staleness across replicas, spacing of reads, the cache object |
| `RateLimiter`, `LateCalls`, `PathLimits` | fixed-window limiter, calls served out of clock order, path matcher, charges on HTTP and gRPC |
| `ScimStore`, `ScimSafety`, `ScimAccess`, `ScimRetry`, `ScimProof`, `ScimRepository` | SCIM PUT, PATCH, DELETE: specification, access and signal, lasting access, retry, verified emails, the store object |
| `EmailAddress`, `EmailCanonical`, `DisplayName` | canonical mailboxes and carried proof; fixed points of the canonical form; joined names |
| `Retention`, `Sweeper` | retention windows from environment to cutoff, the sweep cycle |
| `CsrfCookie` | pending CSRF tokens in a cookie |
| `AuthPipeline`, `ClientIp` | resolver, auth, guard; client address behind proxies |
| `ConstEval`, `OneShotCallback` | constant evaluator of the documentation generator; one-shot native callback |
| `Text`, `Prelude` | splitting, joining, searching, trimming; what every module shares |

## Where the code and its documentation disagree

The model follows the code; each point has a counterexample or an exact condition.

- A revoke in the same process is documented as visible on the very next request, at the
  cost of one extra cache miss at worst. A lookup that reads between the revoke's drop and
  its write and fills after it is answered from for TTL (`RevokeCanGoUnseen`). From any
  state a revoke is seen by every later lookup exactly when the cached entry neither says
  nor is about to say Active (`RevokeIsSeenIff`).
- A session revoked on another replica is documented as invisible for at most TTL.
  A lookup that reads before the revocation and fills after it is cached for TTL
  from the fill (`ReplicaBoundCanFail`); without such a lookup the bound holds
  (`ReplicaStalenessBound`), and it can be exceeded exactly as `LateAnswerIff` says.
- SCIM keeps the verified flag over an email change only where the earlier proof reaches.
  That holds over a run exactly when proof carried in two writes is carried in one
  (`VerifiedStaysBackedIff`). ASCII addresses meet this (`AsciiRunsStayBacked`). Beyond
  ASCII the code's two comparisons differ: the long s (U+017F) equals "s" for
  `strings.EqualFold` and not for `strings.ToLower`, so two renames can end verified for an
  address nothing proven carries to (`FoldedPairRunIsUnbacked`, `LongSRunIsUnbacked`).
- The canonical form of an address is documented as idempotent up to one trailing dot on the
  domain. It is exactly when it neither begins nor ends with whitespace and its domain does
  not end in a dot (`CanonicalIsFixedIff`). Being usable does not ensure the first
  (`UsableIsNotFixed`), and a full stop that IDNA maps to a dot breaks the second
  (`MappedStopIsNotFixed`).
- A retry after a partial failure is meant to deliver `user.deactivated`. A DELETE whose
  delete takes effect and reports an error never delivers it (`UnackedDeleteLosesSignal`);
  after any other partial failure the row is still there and a retry does
  (`RetryDeliversSignal`).
- Deactivation and deletion are meant to end access at once. A sign-in admitted before the
  deactivation is written can outlive it (`CutIffNoneUnderWay`), and since DELETE revokes
  while the owner is still active, an owned agent can sign in past it (`DeleteCutsAgentIff`).
  Otherwise access stays ended until the account is set active again (`DeprovisioningLasts`).
- An explicit project key is documented as never silently downgraded. Without a control
  plane it is ignored (`ExplicitKeyDecides`, `KeyIsIgnored`).
- The gRPC bridge shares the HTTP limiters for the procedures it guards; others, such as
  password logins, are limited on HTTP only (`TransportsAgreeIff`,
  `LoginIsLimitedOnHttpOnly`).
- A refresh lifetime above 9223372036 seconds overflows in the retention check, which
  then accepts windows shorter than the lifetime (`AnonymousRetentionIsSafe`,
  `OverflowIsAccepted`).
- The retention comments put the overflow at about 106752 days; exactly, cutoffs are
  right up to 106751 days and in the future at 106752 (`CutoffExact`, `CutoffInverts`). The
  audit window is not capped at all (`AuditCutoffIff`).
- With the retention variable unset the raised window is meant to fail on the day cap only. A
  lifetime negative enough to wrap can be refused by the lifetime check, or accepted though
  tokens outlive the window (`RaisedWindowAcceptedIff`, `RaisedWindowCanFail`).
- The limiter is documented to give `limit` permits per window. Any interval of one window's
  length admits up to 2*limit-1 of a key's calls served in clock order. The time is read
  before the lock is taken, so calls can be served late: above limit 1 that bound
  survives exactly up to one millisecond of lateness (`TwoBudgetsIff`), and the exact bound for any lateness is
  `LateBound`, reached by `LateBoundIsAttained`.
- A refused caller is told to retry after one window. One refused by a window that opened
  after its own clock reading can be refused again (`RefusedIsAdmittedIff`,
  `RetryCanComeEarly`).
- The limiter's windows are documented as aligned to wall-clock seconds; each starts at a
  call for its own key (`WindowsStartAtCalls`).
- The auth middleware is documented never to reject on exempt paths; it answers 503 when
  the tenant a token selected cannot be read (`HandlerIsReachedIff`).
- Session auth admits a subset of plain auth as a stage, and through the whole chain for
  authenticated requests; for unauthenticated ones it can admit more
  (`SessionChainAdmitsMore`).
- The constant evaluator follows references but keeps its cycle set across siblings, so it
  resolves an expression exactly when no constant is followed twice (`ResolvedIffLinear`).
- `splitDisplayName` reverses `joinName` only for some names (`NameRoundTrip`).

## Model

| member | source | states |
|---|---|---|
| `SessionSafety.StepKeepsInv` | internal/middleware/session.go:143-357 | every atomic step of any lookup, revoker or other writer keeps the invariant relating entries, locks, orphans, answers, fences and store history |
| `SessionSafety.ReachableInv` | internal/middleware/session.go:143-357 | the invariant holds in every reachable state, for any number of threads |
| `SessionTheorems.EveryAnswerIsBacked` | internal/middleware/session.go:143-252 | in every interleaving each answer is the store state of its own sid and project at one read; a cached one was filled less than ttl before the lookup began |
| `SessionTheorems.StrictModeReadsThrough` | internal/middleware/session.go:143-160 | with ttl at most 0 every answer is the store state at a moment inside the call |
| `SessionTheorems.InvalidationIsAFence` | internal/middleware/session.go:295-314 | a lookup begun after its sid was dropped never answers from a read made before the drop, even through orphaned entries; a range may visit keys stored meanwhile and pass over keys absent meanwhile |
| `SessionTheorems.RevocationResidue` | internal/middleware/session.go:346-357 | an Active answer to a lookup begun after a successful revoke comes from a lookup overlapping the revoke that read between drop and write, and only for ttl after its fill |
| `SessionTheorems.QuietRevocationIsSeen` | internal/middleware/session.go:346-357 | a successful revoke no lookup of the sid overlaps is never followed by Active, and by Revoked while the row is kept |
| `SessionStaleness.ReplicaStalenessBound` | internal/middleware/session.go:79-82 | after a revocation elsewhere Active is answered for less than ttl after it if no lookup straddles it, else less than ttl after the straddling fill |
| `SessionStaleness.ActiveAnswerIff` | internal/middleware/session.go:143-357 | in every reachable state with the row revoked, some continuation answers Active to a lookup begun from now on, at a given time or later, exactly when the mapped entry is being filled from an Active read or says Active past that time |
| `SessionStaleness.LateAnswerIff` | internal/middleware/session.go:79-82 | the documented bound of ttl after a revocation elsewhere can be exceeded from a state on exactly then |
| `SessionStaleness.RevokeIsSeenIff` | internal/middleware/session.go:292-300 | after a successful revoke in this process every lookup begun from a state on is told so exactly when the mapped entry neither says nor is about to say Active |
| `SessionStaleness.RevokeCanGoUnseen` | internal/middleware/session.go:342-349 | for every positive ttl a concrete run answers Active to a lookup begun after a successful revoke in the same process |
| `SessionStaleness.ReplicaBoundCanFail` | internal/middleware/session.go:79-82 | for every positive ttl a concrete run breaks the documented bound |
| `SessionSpacing.StepKeepsSpacing` | internal/middleware/session.go:171-209 | every step keeps the relation between fills, reads under way and finished reads |
| `SessionSpacing.ReadsAreSpaced` | internal/middleware/session.go:171-209 | in every reachable state a read comes at least ttl after any earlier fill of its sid and project unless a drop or another project's refill came between, for any number of readers |
| `SessionCache.Cache.constructor` | internal/middleware/session.go:111-121 | a new cache is empty and agrees with its store |
| `SessionCache.Cache.ReadThrough` | internal/middleware/session.go:226-242 | one store round trip: missing, revoked or active as the row says, or an error |
| `SessionCache.Cache.Lookup` | internal/middleware/session.go:143-209 | the answer equals the store's, hit or miss; one round trip on a miss and none on a hit; errors are not cached; a fill answers for ttl; other sids untouched |
| `SessionCache.Cache.Invalidate` | internal/middleware/session.go:295-300 | removes exactly the sid and keeps agreement with the store |
| `SessionCache.Cache.InvalidateAll` | internal/middleware/session.go:306-314 | empties the cache and keeps agreement |
| `SessionCache.Cache.RevokeSession` | internal/middleware/session.go:346-349 | drop then write: agreement is kept whether or not the write succeeds, and success leaves the session not active |
| `SessionCache.Cache.RevokeSessionsForUser` | internal/middleware/session.go:354-357 | the same for all of a user's rows |
| `RateLimiter.RunStaysValid` | internal/middleware/ratelimit.go:55-101 | after every call sequence, at any times at all, the map is within maxSize and every count in 1..limit |
| `RateLimiter.WindowsStartAtCalls` | internal/middleware/ratelimit.go:24-26 | over every run a stored window starts at the time of a call for its own key |
| `RateLimiter.CappedRefinesUncapped` | internal/middleware/ratelimit.go:55-101 | with a clock that does not go back and fewer than maxSize open windows at each opening, the answers are those of a limiter that never evicts |
| `RateLimiter.BudgetBounds` | internal/middleware/ratelimit.go:55-101 | what a run of calls served in clock order admits to a key is at most its remaining budget plus limit for each live eviction of it |
| `RateLimiter.SlidingBound` | internal/middleware/ratelimit.go:55-101 | with calls served in clock order any interval of one window admits a key at most 2*limit-1 times, plus limit per live eviction of it |
| `RateLimiter.WindowBound` | internal/middleware/ratelimit.go:55-78 | with calls served in clock order a window admits at most limit, plus limit per live eviction |
| `LateCalls.SlidingBoundIsAttained` | internal/middleware/ratelimit.go:55-78 | in clock order 2*limit-1 is reached, for every limit and every window of at least 2 ms |
| `LateCalls.LateBound` | internal/middleware/ratelimit.go:55-101 | with calls served up to d behind the latest reading, any interval of one window admits a key at most n*(limit-1)+1 times, n = (2*window+d-2)/window+1, and as much again for each time the key was thrown out while a late call could still have spent from its window |
| `LateCalls.LateBoundIsAttained` | internal/middleware/ratelimit.go:55-101 | that bound is reached for every lateness, window and limit, with nothing thrown out |
| `LateCalls.TwoBudgetsIff` | internal/middleware/ratelimit.go:61-63 | for a window of at least 2 ms, every run late by at most d that loses no window keeps to 2*limit-1 exactly when d is at most one millisecond or the limit is one |
| `RateLimiter.RefusedIsAdmittedIff` | internal/middleware/ratelimit.go:55-101 | a refused caller whose key nobody else uses is admitted again exactly when its window was thrown out or one window has passed since it started, whatever other keys do |
| `RateLimiter.FixedWindowLimiter.constructor` | internal/middleware/ratelimit.go:42-52 | starts empty with the given policy and 100000 for a non-positive size |
| `RateLimiter.FixedWindowLimiter.Allow` | internal/middleware/ratelimit.go:55-78 | answer and new map are those of the specified call, and the size and count bounds are kept |
| `RateLimiter.FixedWindowLimiter.EvictLocked` | internal/middleware/ratelimit.go:88-101 | the in-place loop leaves the open windows, less one of them when they still fill the map |
| `PathLimits.TextIsSegments` | internal/middleware/ratelimit.go:148-159 | the textual prefix test is exactly a whole-segment prefix test |
| `PathLimits.MatchPathLimit` | internal/middleware/ratelimit.go:148-159 | returns the first usable entry whose segments begin the path's, and none only if there is none |
| `PathLimits.BucketKeysApart` | internal/middleware/ratelimit.go:127-132 | bucket keys of tags without a bar are equal only for equal tag and address |
| `PathLimits.BucketKeysCanMeet` | internal/middleware/ratelimit.go:127-132 | with a bar in a tag two pairs can share a key |
| `PathLimits.RetryAfterSeconds` | internal/middleware/ratelimit.go:138-143 | the least positive whole number of seconds that covers the floating-point window |
| `PathLimits.AdvertisedCoversWindow` | internal/middleware/ratelimit.go:138-143 | whatever the conversion to floating point rounds, the advertised seconds cover the window in milliseconds |
| `PathLimits.RetryAfterSuffices` | internal/middleware/ratelimit.go:138-143 | a refused caller that waits the advertised seconds is admitted exactly when its window was thrown out or has ended, so always when the window had started by the caller's own reading |
| `PathLimits.RetryCanComeEarly` | internal/middleware/ratelimit.go:138-143 | a caller refused by a window opened after its reading is refused again after the advertised second |
| `PathLimits.BuildTable` | identityserver/grpc_bridge.go:57-92 | the bridge's table holds, for each procedure, exactly what the HTTP matcher selects for its path |
| `PathLimits.TableIsBuilt` | identityserver/grpc_bridge.go:57-92 | the table built for the guarded procedures is the one the agreement of the transports needs |
| `PathLimits.TransportsAgreeIff` | identityserver/grpc_bridge.go:102-129 | gRPC and HTTP charge, free or refuse a call alike exactly when: nothing limits it and it is no machine procedure, or it has no address, or its guard and its header count as stated |
| `PathLimits.LoginIsLimitedOnHttpOnly` | internal/app/app.go:321-324 | a password login spends the login bucket on HTTP and nothing on gRPC |
| `PathLimits.PoolProjects` | internal/middleware/ratelimit.go:168-190 | one limiter's share of any interleaving of requests is a run of that limiter |
| `PathLimits.SharedBudget` | internal/middleware/ratelimit.go:168-190 | however HTTP requests and gRPC calls interleave in clock order, each charged as its own transport does, one bucket admits at most 2*limit-1 in any window, plus limit per live eviction |
| `PathLimits.LateSharedBudget` | internal/middleware/ratelimit.go:168-190 | however they interleave and reach the lock up to d late, one bucket admits at most the bound for d in any window, and as much again for each loss |
| `EmailAddress.AsciiFoldsTogether` | pkg/emailaddr/emailaddr.go:40-55 | ASCII spellings equal up to case and space have one canonical form and one tag test |
| `EmailAddress.AsciiIsLawful` | internal/service/email_canonical_store.go:37-68 | among ASCII addresses, spellings that fold together have one rewrite target and are usable together |
| `EmailAddress.CarriesIsTransitive` | internal/service/email_canonical_store.go:54-68 | proof carried in two steps is carried in one among addresses where that law holds |
| `EmailAddress.FoldedPairBreaksTheChain` | internal/service/email_canonical_store.go:54-68 | under any tables that fold two local parts together and lower-case them apart, proof carries in two steps and not in one |
| `EmailAddress.LongSIsFoldedPair` | internal/service/email_canonical_store.go:54-68 | the long s and s make such a pair under any tables with their entries |
| `EmailCanonical.CanonicalIsFixedIff` | pkg/emailaddr/emailaddr.go:24-55 | the canonical form of any address is its own canonical form exactly when it neither begins nor ends with whitespace and its domain does not end in a dot |
| `EmailCanonical.UsableIsNotFixed` | pkg/emailaddr/emailaddr.go:24-55 | a usable canonical mailbox that is not its own canonical form |
| `EmailCanonical.MappedStopIsNotFixed` | pkg/emailaddr/emailaddr.go:57-78 | an address whose domain ends in a full stop that IDNA maps to a dot has a canonical form that is not its own |
| `EmailAddress.CarriesToItself` | internal/service/email_canonical_store.go:54-68 | an address proves itself exactly when it is a usable mailbox |
| `ScimSafety.RevokeCuts` | internal/service/agent_accounts.go:778-792 | a revocation that reports success cuts every account of the user's that cannot sign in, through any faults and whatever lands between its calls |
| `ScimSafety.CutIffNoneUnderWay` | internal/app/scim_http.go:398-412 | once the deactivation is written, every way it can succeed cuts an account of the user's off exactly when no sign-in of it was under way at the write |
| `ScimSafety.DeleteCuts` | internal/app/scim_http.go:562-584 | a DELETE that reports success leaves the user, and every agent that could not sign in, no access and no way to get any |
| `ScimAccess.RunStaysOut` | internal/app/scim_http.go:376-584 | an account cut off while its user cannot sign in stays so through every run that does not set the user active again, whatever fails and whatever others do |
| `ScimAccess.DeprovisioningLasts` | internal/app/scim_http.go:376-584 | a deprovisioning request that reports success keeps user and agents out through every such later run, as far as no sign-in slipped past it |
| `ScimSafety.DeleteCutsAgentIff` | internal/app/scim_http.go:562-584 | every way a DELETE can succeed cuts an owned agent off exactly when the agent could not sign in |
| `ScimSafety.CommitSuccess` | internal/app/scim_http.go:376-425 | a write that reports success added one lifecycle event and exactly its audit entries, shows the stored row, and if deactivating cut off every account with no sign-in under way |
| `ScimSafety.CommitFailure` | internal/app/scim_http.go:376-425 | one that fails added no lifecycle event and no audit entry but the unverification already made |
| `ScimSafety.OneSignalPerSuccess` | internal/app/scim_http.go:285-296 | every PUT, PATCH or DELETE adds exactly its one event on success and none otherwise, whichever call failed before or after taking effect |
| `ScimSafety.SignalsAreConserved` | internal/app/scim_http.go:376-584 | over every run the number of user.deactivated events equals the number of deprovisioning calls that reported success |
| `ScimSafety.DeactivationSignal` | internal/app/scim_http.go:376-560 | active=false succeeds exactly when it added one user.deactivated event and one audit entry; then the row is deactivated and every account with no sign-in under way at the write is cut off and cannot sign in |
| `ScimRetry.StepKeepsIff` | internal/app/scim_http.go:355-584 | one operation keeps a row provisioned exactly when no delete call of it took effect and nobody removed it while the operation ran |
| `ScimRetry.RetryDeliversSignal` | internal/app/scim_http.go:376-584 | after any attempts an undisturbed retry by PUT, PATCH or DELETE succeeds and adds the event exactly when the row was there and no attempt took it away |
| `ScimRetry.UnackedDeleteLosesSignal` | internal/app/scim_http.go:562-584 | a DELETE that takes effect and reports an error emits nothing, and no later request ever emits the event |
| `ScimRetry.ProtectedRowsNeverChange` | internal/app/scim_http.go:355-366 | anonymous, merged and agent rows come out of every run unchanged |
| `ScimProof.VerifiedStaysBackedIff` | internal/app/scim_http.go:433-440 | over every run with verifications landing anywhere, a verified email is one that a proven address carries to, exactly when proof carried in two writes is carried in one among the addresses held or stored |
| `ScimProof.AsciiRunsStayBacked` | internal/app/scim_http.go:433-440 | so it is for every run over ASCII addresses, under the code's own rules |
| `ScimProof.FoldedPairRunIsUnbacked` | internal/app/scim_http.go:433-440 | under any such tables two renames end verified and unproven |
| `ScimProof.LongSRunIsUnbacked` | internal/app/scim_http.go:433-440 | so they do for s.am, sam and the spelling with a long s |
| `ScimRepository.PatchFields` | internal/app/scim_http.go:495-536 | the fields built attribute by attribute are those the specification asks for, or none for an unusable address |
| `ScimRepository.RepoScimStore.RevokeAllUserSessions` | internal/service/account_deletion.go:38-46 | tokens then sessions, others acting before each, stopping at the first error |
| `ScimRepository.RepoScimStore.RevokeAgents` | internal/service/agent_accounts.go:786-790 | the loop over owned agents runs the specified calls in order, stopping at the first error |
| `ScimRepository.RepoScimStore.RevokeUserAccess` | internal/service/agent_accounts.go:778-792 | user, agent list and agents in order: the state and result the theorems speak of |
| `ScimRepository.RepoScimStore.EmitUserChange` | internal/app/scim_http.go:285-296 | adds the one event and the audit entry of the transition |
| `ScimRepository.RepoScimStore.ReplaceUser` | internal/app/scim_http.go:376-425 | the store and result after PUT are those of the specification, error paths included |
| `ScimRepository.RepoScimStore.PatchUser` | internal/app/scim_http.go:483-560 | the store and result after PATCH are those of the specification |
| `ScimRepository.RepoScimStore.DeleteUser` | internal/app/scim_http.go:562-584 | the store and result after DELETE are those of the specification |
| `DisplayName.SplitOneName` | internal/app/scim_http.go:693-702 | a lone name comes back as a given name exactly when it has no inner space, and never as a family name |
| `DisplayName.NameRoundTrip` | internal/app/scim_http.go:689-702 | given and family names survive the stored display name exactly when the family name has no space and a given name accompanies it, or there is only a given name without space |
| `Retention.Wrap` | internal/app/sweeper.go:241-261 | 64-bit wrap-around: the one value in range that is congruent modulo 2^64 |
| `Retention.CutoffExact` | internal/app/sweeper.go:241-322 | under wrapping nanosecond arithmetic the cutoff is the intended instant exactly up to 106751 days |
| `Retention.CutoffOrder` | internal/app/sweeper.go:241-322 | up to there cutoffs are in the past and strictly decreasing in the window |
| `Retention.CutoffInverts` | internal/config/config.go:88-112 | at 106752 days the cutoff lies in the future at every clock reading |
| `Retention.NeverReapsLiveIff` | internal/config/config.go:2811-2825 | a window up to 106751 days reaps no holder of a live credential exactly when the credential's wrapped milliseconds do not exceed it |
| `Retention.AnonymousRetentionIsSafe` | internal/config/config.go:2782-2828 | an accepted window reaps no live anonymous user exactly when the refresh lifetime's wrapped milliseconds do not exceed it: always when its nanoseconds fit 64 bits, never for a longer one whose milliseconds fit |
| `Retention.OverflowIsAccepted` | internal/config/config.go:2811-2825 | one second above that an explicit 30-day window is accepted and unsafe |
| `Retention.RaisedWindowAcceptedIff` | internal/config/config.go:1565-1571 | with the variable unset or blank the raised window is accepted exactly under the day cap, the assurance rule and a lifetime that does not wrap past the default window; accepted, it is safe exactly when the wrapped lifetime does not exceed it |
| `Retention.RaisedWindowCanFail` | internal/config/config.go:2811-2825 | one negative lifetime is refused by the lifetime check and one is accepted and unsafe |
| `Retention.ChosenDisagreesOnMalformed` | internal/config/config.go:1565-1571 | with a lifetime of at least 30 days the window stays at 30 exactly for a malformed value or an explicit 30, and a malformed one is refused |
| `Retention.DeviceRetentionIsSafe` | internal/config/config.go:2872-2900 | an accepted device window outlives the assurance token of its last use |
| `Sweeper.LedgerBalances` | internal/app/sweeper.go:374-411 | over any attempts each is counted once as run, error or skip, and each skipped kind is announced once |
| `Sweeper.CycleRecordsDue` | internal/app/sweeper.go:205-221 | a cycle attempts everything due, in order and with its own cutoff, whatever fails on the way |
| `Sweeper.AuditCutoffIff` | internal/app/sweeper.go:306-322 | no validation depends on the audit window; the audit sweep a cycle attempts is cut off where intended exactly up to 106751 days, and in the future one day above |
| `Sweeper.CyclesSpareLiveUsers` | internal/app/sweeper.go:241-261 | from environment to deletion: where that condition holds, no anonymous sweep of an accepted configuration covers a user with a live refresh token |
| `Sweeper.GcSweeper.Attempt` | internal/app/sweeper.go:374-397 | one attempt is recorded as its outcome and kind demand |
| `Sweeper.GcSweeper.LogSkipOnce` | internal/app/sweeper.go:399-411 | a skip is counted every time and announced the first time |
| `Sweeper.GcSweeper.SweepRetention` | internal/app/sweeper.go:241-322 | no attempt for a non-positive window, else one at its cutoff |
| `Sweeper.GcSweeper.PurgeAccounts` | internal/app/sweeper.go:329-344 | the purge is attempted when a purger is wired |
| `Sweeper.GcSweeper.SweepTargets` | internal/app/sweeper.go:205-213 | the loop attempts every target and stops at no failure |
| `Sweeper.GcSweeper.SweepWindows` | internal/app/sweeper.go:214-221 | audit, device and anonymous windows in order |
| `Sweeper.GcSweeper.RunOnce` | internal/app/sweeper.go:205-221 | a cycle leaves the ledger of the specification |
| `CsrfCookie.FindCookie` | internal/app/oauth_hosted_http.go:242-255 | the value of the one cookie of the name, none when absent or repeated |
| `CsrfCookie.Tokens` | internal/app/oauth_hosted_http.go:242-268 | parses exactly one cookie; a result has 1 to 16 non-empty dot-free tokens |
| `CsrfCookie.Remove` | internal/app/oauth_hosted_http.go:277-285 | the loop keeps the other tokens in order |
| `CsrfCookie.ParsePrint` | internal/app/oauth_hosted_http.go:222-268 | printing then parsing gives the list back exactly for 1 to 16 non-empty dot-free tokens |
| `CsrfCookie.StepKeepsSound` | internal/app/oauth_hosted_http.go:98-126 | every start and callback keeps the cookie equal to the print of the pending starts in order |
| `CsrfCookie.PendingTokensSurvive` | internal/app/oauth_hosted_http.go:98-220 | after any run the cookie parses to at most 16 unspent tokens in start order, with every unspent one that has fewer than 16 later starts |
| `CsrfCookie.SpentStaysSpent` | internal/app/oauth_hosted_http.go:210-220 | a spent token is never pending again |
| `AuthPipeline.KeyStateRoundTrip` | pkg/oauth/hosted_state.go:61-77 | project key and state token survive joining and splitting exactly when the token has no colon |
| `AuthPipeline.SplitTokenIsPlain` | pkg/oauth/hosted_state.go:72-77 | the token half read back never holds a colon |
| `AuthPipeline.ClientIdentityIsIgnored` | internal/middleware/auth.go:289-397 | through resolver, auth and guard, in both modes, nothing depends on identity headers the client sent |
| `AuthPipeline.HandlerIsReachedIff` | internal/app/app.go:930-938 | in either mode a request reaches the handler exactly when its project resolves, its token's tenant can be read, its path is exempt or its token speaks for a user, and a token that speaks is of the resolved project |
| `AuthPipeline.IdentityIsVerified` | internal/middleware/auth.go:289-397 | there a user id is seen exactly when a token of the request speaks for one, then exactly that identity, and otherwise none |
| `AuthPipeline.ExplicitKeyDecides` | internal/middleware/project.go:102-136 | a key from header, form, state or query names the project a reached handler works in exactly when there is a control plane; without one the default project is used |
| `AuthPipeline.KeyIsIgnored` | internal/middleware/project.go:73-175 | without a control plane no key makes any difference to the project |
| `AuthPipeline.SessionAuthRefines` | internal/middleware/session.go:371-450 | as a stage session auth lets through a subset of plain auth, with the same headers or on exempt paths none |
| `AuthPipeline.SessionChainRefines` | internal/app/app.go:930-938 | an authenticated request through the session chain is the same request through the plain chain |
| `AuthPipeline.ModesAgree` | internal/middleware/session.go:371-450 | the chains agree on everything unless the token names a session not active in the resolved project |
| `AuthPipeline.SessionChainAdmitsMore` | internal/app/app.go:930-938 | session mode reaches a handler plain mode refuses exactly when an exempt path drops such a session of another project |
| `AuthPipeline.StaleTokenPassesUnauthenticated` | internal/app/app.go:930-938 | a concrete deployment and request where that happens |
| `AuthPipeline.HttpRequest.ClearAuthHeaders` | internal/middleware/auth.go:391-397 | removes the five identity headers and nothing else |
| `AuthPipeline.HttpRequest.SetAuthHeaders` | internal/middleware/auth.go:372-386 | writes the identity of the claims, absent claims left absent |
| `AuthPipeline.HttpRequest.AuthMiddleware` | internal/middleware/auth.go:289-343 | in-place headers and status are those of plain auth |
| `AuthPipeline.HttpRequest.SessionAuthMiddleware` | internal/middleware/session.go:371-450 | in-place headers and status are those of session auth |
| `ClientIp.InNetworks` | internal/middleware/clientip.go:114-125 | found exactly when the address parses and some network contains it |
| `ClientIp.ResolveClientIP` | internal/middleware/clientip.go:82-104 | the right-to-left loop computes the specified address |
| `ClientIp.WalkFinds` | internal/middleware/clientip.go:91-101 | the right-most non-blank untrusted hop is the client |
| `ClientIp.WalkFallsBack` | internal/middleware/clientip.go:102-103 | with no such hop it is the left-most entry |
| `ClientIp.ForgedPrefixIsIgnored` | internal/middleware/clientip.go:82-104 | text put in front cannot change the address when such a hop exists or the peer is untrusted |
| `ClientIp.PrefixIsIgnoredIff` | internal/middleware/clientip.go:82-104 | and only then: otherwise some text in front becomes the client |
| `ConstEval.Eval` | cmd/docsgen/main.go:408-456 | terminates on every constant table, cyclic ones included; marks only grow and only constants are marked |
| `ConstEval.UnfoldingIsUnique` | cmd/docsgen/main.go:408-456 | an expression has at most one unfolding and so at most one value |
| `ConstEval.LinearIsEvaluated` | cmd/docsgen/main.go:408-456 | a value whose unfolding follows no name twice is found |
| `ConstEval.EvaluatedIsLinear` | cmd/docsgen/main.go:408-456 | whatever is found is the value of such an unfolding |
| `ConstEval.EvalIsLinearValue` | cmd/docsgen/main.go:408-456 | the evaluator yields a value exactly when some linear unfolding has it |
| `ConstEval.ResolvedIffLinear` | cmd/docsgen/main.go:408-456 | an expression with a value is resolved exactly when its unfolding is linear, and is nil otherwise |
| `ConstEval.SharedConstantIsLost` | cmd/docsgen/main.go:421-427 | a constant named twice without any cycle is nil |
| `ConstEval.Evaluator.EvalConst` | cmd/docsgen/main.go:408-456 | the in-place evaluator returns and marks as specified |
| `OneShotCallback.StepKeepsInv` | examples/agent-delegation/native.go:58-102 | every step of every interleaving keeps: one winner, who alone sends, once |
| `OneShotCallback.AtMostOneAccepted` | examples/agent-delegation/native.go:58-102 | at most one request is accepted and one result sent |
| `OneShotCallback.SentIsTheAccepted` | examples/agent-delegation/native.go:58-102 | a result was sent exactly when an accepted request returned; it is that request's code, or empty on its error, and it carried the expected state and issuer |
| `OneShotCallback.SendFindsRoom` | examples/agent-delegation/native.go:78-100 | the winner's send always finds the channel empty, so the fallback branches are dead |
| `OneShotCallback.UsedMeansUsed` | examples/agent-delegation/native.go:69-96 | a request is told the callback was used only when another one used it |
| `Text.SplitJoin` | internal/app/oauth_hosted_http.go:222-268 | splitting undoes joining exactly for a non-empty list of separator-free parts |
| `Text.SplitPrefix` | internal/middleware/ratelimit.go:148-159 | the parts of one text begin those of another exactly when it is equal or followed by a separator |

## Left out

- ReplicaStalenessBound: the code does not meet the documented bound of TTL after the revocation, so it is proved where no lookup straddles the revocation, and TTL after the fill otherwise.
- VerifiedStaysBackedIff: assumes one writer of the email during one PUT or PATCH: others verify, remove and sign in, they do not move the address.
- CutIffNoneUnderWay: others change no status, owner or list of agents while an operation runs; a sign-in that cancels a pending deletion keeps its status here.
- DeprovisioningLasts: the repository is one with foreign keys, as the SQL ones are: a session or token row needs its user's row. The in-memory one does not check this. Creation of users and agents is not an operation here.
- CanonicalIsFixedIff: assumes of the library that lower-casing settles, and that an IDNA form is the domain itself or a lower-case host name without whitespace that is its own IDNA form, also without a trailing dot.
- AdvertisedCoversWindow: takes the conversion of a duration to a 64-bit float to be off by less than a millisecond; the float itself is not modelled.
- SlidingBound: calls served in clock order; `LateBound` is the result without that order.
- SharedBudget: requests served in clock order; `LateSharedBudget` is the result without that order.
- WindowBound: calls served in clock order; that no window ever counts past limit holds in any order (`RunStaysValid`).
- CappedRefinesUncapped: calls served in clock order; a late call can find evicted a window that had ended for the others, which `LateBound` counts as a loss.
- BucketKeysApart: needs tags without a bar, as all the configured tags are; `BucketKeysCanMeet` shows why.
- PrefixIsIgnoredIff: assumes that the word "unknown" is not an IP address.
- PendingTokensSurvive: one browser whose responses are applied in order; cookie expiry after 15 minutes and parallel responses are not modelled.
- The wait of the native example for its result, with its time-out, and response headers.
- The session middleware's lookup in `AuthPipeline` is one answer per request; its concurrency is in `SessionProtocol`.
- Sessions expire only by revocation or purge in `SessionProtocol`; the cache does not read an expiry.
- Header names in `AuthPipeline` are exact and single-valued; canonical spelling and repeated headers are the library's.
- JWT verification, tenant and project directories, IP and CIDR parsing, Unicode case tables, IDNA and constant arithmetic are abstract functions; where the constant library panics is not modelled.
- Which SCIM error a failed repository call is mapped to: the model has one failure result for conflict, not found and other errors, and an update of a missing row is one of them.
- SCIM create, list, filters and wire format, timestamps of rows, and the account-address follow-up of a rename.
- Row deletion inside the sweep targets, sweep intervals, batches and metrics.
- `collectConsts` and `slugify` of the documentation generator: each is one pass with no state that outlives it; the evaluator takes the constant table as given, so its results hold for any table.
- Connect handlers, converters, the other methods of the gRPC bridge, CORS, metrics, logging and boot-time checks of single fields.
