# Verified model of the incident-analysis service

This project models the stateful, concurrent and arithmetic core of an incident-analysis
service and proves what that core guarantees. Files follow the components of the program:

| component | files | main question answered |
|---|---|---|
| HTTP rate limiter | `RateLimiter`, `LimiterRuns`, `LimiterEviction` | what a whole run of interleaved calls can be granted, and when eviction shows |
| outbound retry | `Int64`, `Retry` | when wrapping 64-bit backoff is exact, and how long a run can sleep |
| trace insights | `CriticalPath`, `ServiceGraph`, `SelfTime` | when the critical-path walk ends, and what the aggregates conserve |
| sessions | `RefreshTokens`, `Users`, `Text`, `Sessions`, `SessionProofs`, `SessionHistory`, `SessionAccounts`, `AuthService` | refresh-token rotation with reuse detection (section 4.14.2 of RFC 9700) over every run |
| listing, statistics, recommendations | `Domain`, `Listing`, `ListingOrder`, `Stats`, `StatsMeaning`, `Recommendations`, `RecommendationRules`, `Sorting` | results that do not depend on map order, and lose nothing |
| per-analysis lock | `LockProtocol` | mutual exclusion, abandoned waiters, absence of dead ends |
| asynchronous jobs, cache and chat | `Jobs`, `ContextCache`, `Pipeline`, `PipelineProofs`, `PipelineTheorems`, `PipelineFinality`, `PipelineRecords`, `PipelineRefinement` | what survives every interleaving of submitters, workers, cancelers and chats |

Code that updates state in place is a class whose methods are proved equal to a function
of the old state; the theorems are about those functions, over all runs. What each such function
means is stated once more without naming it, by positions, counts and stored values. Protocols are
state machines: a run is any sequence of events, an event that is not possible in a state
does nothing, and a theorem over runs is a theorem over all event sequences. Reads of the
clock, random draws, and the success of calls to the outside are arguments, so they are
universally quantified. Times and token counts of the limiter are reals; instants elsewhere
are integers (nanoseconds); durations and offsets that the program adds or multiplies in
64 bits wrap.

Results where the code does not do what its comments say, or does it only under a condition:

- `internal/platform/retry/retry.go:15-17` says MaxDelay caps the sleep. It caps the jitter, and the
  base delay comes on top. Over the attempts a run can make, the sleep stays within MaxDelay for
  every draw if and only if the run makes one attempt, or base + min(base * 2^(attempts-2), MaxDelay) - 1
  is at most MaxDelay, or MaxDelay is the largest duration (`Retry.MaxDelayCapsSleepIff`). So it holds
  for the default policy, and for its delays up to six attempts, but not for seven (`Retry.DefaultDelaysCapped`).
- The exponential schedule is exact despite overflow while base * MaxDelay is below
  2^64 + 2^33 + 1, and the threshold is sharp (`Retry.BackoffExact`, `Retry.BackoffInexactAtThreshold`).
- `internal/core/usecase/trace.go:121-123` says the overall longest span is the root if there
  are several roots. With two parentless spans and a longer child the root is not the child
  (`CriticalPath.LongerChildIsNoRoot`). The root is a longest span overall if and only if no span is
  parentless or some parentless span is a longest one (`CriticalPath.RootIsLongestOverallIff`).
- With distinct, non-empty ids the walk loops for ever exactly when its start lies
  on a parent cycle each member of which is the slowest child of its parent
  (`CriticalPath.TerminatesIffNoSlowestCycle`, with the smallest such trace in `CriticalPath.SelfParentNeverEnds`).
  If ids are shared it can loop from a parentless root too (`CriticalPath.SharedIdNeverEnds`); on any
  trace it ends exactly when it is never twice at one place (`CriticalPath.TerminatesIffNoRepeat`).
- `internal/core/usecase/auth.go:140-142` says other tokens of a family survive a logout. A logout
  with an active secret ends the family if and only if no other token of it is active
  (`SessionHistory.LogoutEndsFamilyIff`). When use cases are atomic there never is one
  (`SessionHistory.LogoutEndsFamily`), so sessions on other devices are other families; in a family
  forked by interleaved refreshes the comment is right (`SessionHistory.LogoutLeavesFork`).
- `now` is read before the limiter's lock, so stamps can arrive out of order. If they do so by at
  most `skew` seconds, evicting idle buckets cannot be noticed if and only if
  rate * (600 - 2 * skew) >= burst (`LimiterEviction.EvictionUnobservableIff`). In time order that is a
  rate that refills the burst within the eviction age; with a disorder of 300 seconds or more eviction
  can always be noticed (`LimiterEviction.EvictionInOrderIff`).
- Terminal job states are not absorbing, because no transition looks at the old status
  (`PipelineTheorems.TerminalStatesCanChange`). A completed or failed status is final if and only if no
  canceler has read the job as unfinished and is about to mark it; a canceled one if and only if the
  worker has not looked the job up yet, is about to mark the cancellation itself, or is past its last
  mark (`PipelineFinality.TerminalIsFinalIff`). So a cancellation that lands between the worker's lookup
  and its running mark is lost (`PipelineFinality.CancellationSticksIff`).
- The claim of one unrevoked token per family needs refresh to be atomic: a refresh whose lookup
  has gone stale keeps it if and only if the token is still active or its family is dead
  (`SessionHistory.LateRotationKeepsClaimIff`). Starting a session keeps an active owner behind every
  token if and only if the given record is inactive or the stored one is active
  (`SessionHistory.StartSessionKeepsOwnersIff`).
- The offset of a next link wraps for offsets within one page of 2^63, giving an empty page a
  link (`Listing.NextLinkRightIff`); following links from offset zero never gets there.

## Model

| member | source | states |
|---|---|---|
| RateLimiter.NewRateLimiter | internal/adapters/inbound/http/rate_limiter.go:42-52 | a limiter exists exactly for enabled configurations, and starts empty |
| RateLimiter.Limiter.Allow | internal/adapters/inbound/http/rate_limiter.go:57-88 | the in-place bucket update is the step function all run theorems are about; an empty key is allowed and changes nothing |
| RateLimiter.Limiter.EvictStale | internal/adapters/inbound/http/rate_limiter.go:90-96 | deleting in any map order removes exactly the buckets idle for more than the eviction age |
| RateLimiter.SweptOnlyBeyondCap | internal/adapters/inbound/http/rate_limiter.go:66-96 | a table of at most ten thousand keys loses nothing on a call; a larger one loses exactly the keys idle for more than ten minutes |
| RateLimiter.AvailableIsLeastRoom | internal/adapters/inbound/http/rate_limiter.go:70-88 | the tokens on offer at call j are the minimum over all earlier calls i of burst + rate*(t_j - t_i) minus the admissions since i, whatever was refused and in whatever order timestamps come |
| RateLimiter.AdmittedIffRoom | internal/adapters/inbound/http/rate_limiter.go:83-87 | a call is admitted if and only if every window ending with it has room for one more |
| RateLimiter.WhollyAdmittedIffConforms | internal/adapters/inbound/http/rate_limiter.go:57-88 | a sequence of calls on one key is wholly admitted if and only if it conforms to (rate, burst) |
| LimiterRuns.PotentialStep | internal/adapters/inbound/http/rate_limiter.go:70-88 | tokens - rate*lastSeen of a kept key never rises on any call of any key, and falls by one per admission |
| LimiterRuns.WindowBound | internal/adapters/inbound/http/rate_limiter.go:62-88 | from any call stamped s to an admitted call stamped t of the same key at most burst + rate*(t-s) calls are admitted, for out-of-order timestamps too, if the key is not evicted in between |
| LimiterRuns.KeysAreIndependent | internal/adapters/inbound/http/rate_limiter.go:70-88 | without eviction an answer is a function of the earlier timestamps of that key alone |
| LimiterEviction.SimulationHolds | internal/adapters/inbound/http/rate_limiter.go:62-96 | along every run whose stamps are at most skew out of order, the evicting limiter is the never-evicting one less keys idle for the eviction age, and gives the same answers, if the rate refills the burst in 600 s less twice the skew |
| LimiterEviction.AnswersDependOnOwnKey | internal/adapters/inbound/http/rate_limiter.go:57-96 | under the same condition keys do not affect each other although the table is shared and swept |
| LimiterEviction.EvictionUnobservableIff | internal/adapters/inbound/http/rate_limiter.go:57-96 | for every skew, no run with stamps at most skew out of order can tell eviction from its absence if and only if rate * (600 - 2*skew) >= burst; otherwise a run is shown that tells |
| LimiterEviction.PlanTells | internal/adapters/inbound/http/rate_limiter.go:57-96 | the telling run: drain a key, call it once more skew earlier, crowd the table, sweep it by another key, and return as early as the skew allows |
| LimiterEviction.EvictionInOrderIff | internal/adapters/inbound/http/rate_limiter.go:57-96 | in time order the condition is rate * 600 >= burst; with a disorder of 300 s no enabled configuration hides eviction |
| Retry.JitterBound | internal/platform/retry/retry.go:94-99 | the argument of the random draw is always positive and at most MaxDelay |
| Retry.BoundExactIff | internal/platform/retry/retry.go:94-98 | the jitter bound is min(base*2^(attempt-1), MaxDelay) if and only if the product does not overflow into a small positive delay |
| Retry.BackoffExact | internal/platform/retry/retry.go:84-101 | the bound is the ideal one at every attempt whenever base * MaxDelay < 2^64 + 2^33 + 1 |
| Retry.BackoffInexactAtThreshold | internal/platform/retry/retry.go:94-98 | at base = MaxDelay = 2^32 + 1 the 33rd bound comes back too small, so the threshold cannot be raised |
| Retry.NeverOverflowsIff | internal/platform/retry/retry.go:84-101 | no sleep of a run overflows, for any reachable attempt and draw, if and only if the run makes one attempt or base + the ideal bound of its last sleep - 1 is below 2^63 |
| Retry.BoundAtMostIdeal | internal/platform/retry/retry.go:94-98 | with or without overflow no jitter bound up to an attempt exceeds the ideal one there |
| Retry.IdealIsReached | internal/platform/retry/retry.go:94-98 | and some attempt up to there reaches it, since the first overflow is negative and falls back to MaxDelay |
| Retry.MaxDelayCapsSleepIff | internal/platform/retry/retry.go:42-101 | the documented cap holds for every reachable attempt and draw, of any policy, if and only if the run makes one attempt, or base + the ideal bound of its last sleep - 1 is at most MaxDelay, or MaxDelay is 2^63 - 1 |
| Retry.DefaultDelaysCapped | internal/platform/retry/retry.go:25-31 | the cap holds for the default policy and its delays up to six attempts, and fails for seven |
| Retry.TotalSleepBound | internal/platform/retry/retry.go:52-77 | the sleeps of a run add up to at most (attempts-1)*(base + MaxDelay - 1), for every policy |
| Retry.Do | internal/platform/retry/retry.go:42-82 | every attempt before the last failed with a retryable error uninterrupted; the verdict is that of the last operation run, a cancellation shows only if nothing was run; how many timers started; when no sleep overflows and the schedule is exact, the i-th sleep is the base plus the draw modulo min(base * 2^i, MaxDelay); and the bound on their sum |
| Retry.SleepIsExact | internal/platform/retry/retry.go:84-101 | the sleep after an attempt is exactly that, for every policy whose longest sleep fits and whose schedule is exact |
| Retry.EveryDelayIsDrawn | internal/platform/retry/retry.go:99-100 | the delays that draws lead to are exactly those from base up to below base + min(base * 2^i, MaxDelay) |
| Retry.PolicyDefaults | internal/platform/retry/retry.go:43-46 | unset values are 100 milliseconds, 2 seconds and one attempt |
| CriticalPath.SlowestChild | internal/core/usecase/trace.go:183-194 | finds the first child no other child outlasts, and reports absence exactly for no children |
| CriticalPath.PickRoot | internal/core/usecase/trace.go:159-181 | two scans, parentless spans first: the root that the lemmas below characterize |
| CriticalPath.IndexChildren | internal/core/usecase/trace.go:133-138 | the index holds, for every parent id, its children in trace order and nothing else |
| CriticalPath.Walk | internal/core/usecase/trace.go:146-156 | the unbounded loop ends and records every step of the walk to its leaf, whenever the walk has an end |
| CriticalPath.Apply | internal/core/usecase/trace.go:127-157 | the rule returns the complete walk from the picked root, and an empty path for an empty trace or an empty root id |
| CriticalPath.PathIsSlowestChain | internal/core/usecase/trace.go:146-156 | the path is a parent/child chain, each step a longest sibling, ending at a span nobody names as parent |
| CriticalPath.NextIsFirstLongest | internal/core/usecase/trace.go:183-194 | each step enters the longest child, the first in the trace on a tie, and the walk stops exactly where there is none |
| CriticalPath.TerminatesIffNoRepeat | internal/core/usecase/trace.go:146-156 | on every trace, whatever its ids, the walk ends if and only if it is never twice at one place, and then within as many steps as there are spans |
| CriticalPath.TerminatesIff | internal/core/usecase/trace.go:148-155 | with distinct non-empty ids the walk ends if and only if it never comes back to its start |
| CriticalPath.ClimbUndoesDescend | internal/core/usecase/trace.go:148-155 | descending n steps and climbing parents are inverse |
| CriticalPath.TerminatesIffNoSlowestCycle | internal/core/usecase/trace.go:148-155 | the walk ends if and only if its start is on no parent cycle all of whose members are slowest children |
| CriticalPath.TerminatesUnlessOwnAncestor | internal/core/usecase/trace.go:148-155 | the walk ends from any start that is not its own ancestor, whatever cycles lie elsewhere |
| CriticalPath.PathHasNoRepeats | internal/core/usecase/trace.go:146-156 | no id occurs twice on a path, whatever the ids of the trace |
| CriticalPath.RootIsLongest | internal/core/usecase/trace.go:159-181 | the root is a longest parentless span or, if no span is parentless, a longest span overall |
| CriticalPath.RootIsFirst | internal/core/usecase/trace.go:159-181 | the root stands before every other span that ties with it |
| CriticalPath.RootIsLongestOverallIff | internal/core/usecase/trace.go:159-181 | the root is a longest span overall if and only if no span is parentless or some parentless span is a longest one |
| CriticalPath.LongerChildIsNoRoot | internal/core/usecase/trace.go:121-123 | a trace with two parentless spans whose overall longest span is not the root |
| CriticalPath.ParentlessNeverReturns | internal/core/usecase/trace.go:148-155 | a walk from a parentless span cannot return to it |
| CriticalPath.CriticalPathExists | internal/core/usecase/trace.go:127-157 | with distinct ids, non-negative durations and some parentless span the rule terminates, even if other spans form cycles |
| CriticalPath.SelfParentNeverEnds | internal/core/usecase/trace.go:148-155 | the walk on a single span that is its own parent never ends |
| CriticalPath.SharedIdNeverEnds | internal/core/usecase/trace.go:148-155 | a trace with a parentless root whose id a second span shares, on which the walk never ends |
| ServiceGraph.Percentile | internal/core/usecase/trace.go:243-252 | the index is in range for every list and percentage, and the result is the order statistic the lemmas below are about; zero for no values |
| ServiceGraph.PercentileIsOrderStatistic | internal/core/usecase/trace.go:243-252 | the result is a member with at least rank+1 values not above it and at least n-rank not below it, where rank is pct% of n-1 rounded down |
| ServiceGraph.PercentileIgnoresOrder | internal/core/usecase/trace.go:247-251 | the same values in any order give the same percentile |
| ServiceGraph.SlowestSpans | internal/core/usecase/trace.go:95-117 | lists the ids of the first top (or all) spans by falling duration |
| ServiceGraph.SlowestSpansAreTheLongest | internal/core/usecase/trace.go:101-116 | listed and omitted spans make up the trace, none omitted outlasts one listed, ties keep the trace's order |
| ServiceGraph.GroupDurations | internal/core/usecase/trace.go:206-223 | each service pair gets exactly the durations of the calls across it, in trace order |
| ServiceGraph.DependencyEdges | internal/core/usecase/trace.go:200-241 | the table of the edges, in whatever order the map is read; what the edges are is EdgesAreCalls |
| ServiceGraph.EdgesAreCalls | internal/core/usecase/trace.go:216-233 | there is an edge from a service to another exactly if some span of the one is the parent of a span of the other (the last span with the parent's id), both named and different, and its count is the number of such positions |
| ServiceGraph.EdgePercentile | internal/core/usecase/trace.go:226-232 | an edge's 95th percentile is the duration of one of its calls, with at least rank+1 calls no longer and n-rank no shorter, where rank is 95% of n-1 rounded down |
| ServiceGraph.EdgeTableUnique | internal/core/usecase/trace.go:225-239 | there is only one such table for a trace |
| ServiceGraph.CallsAreConserved | internal/core/usecase/trace.go:216-233 | the call counts add up to the number of spans whose parent is in another named service |
| SelfTime.FetchSpans | internal/adapters/outbound/jaeger/trace_provider.go:34-69 | every span gets its duration less the 64-bit sum of its children's, clamped at zero, in milliseconds |
| SelfTime.RecordDurations | internal/adapters/outbound/otel/trace_provider.go:250-257 | the table holds the duration of the last span with each id, over all groups |
| SelfTime.LastDurationIs | internal/adapters/outbound/otel/trace_provider.go:250-257 | the duration on record for an id is that of the last span that carries it |
| SelfTime.RawsIs | internal/adapters/outbound/otel/trace_provider.go:252-256 | spans keep their ids and parents, and last from start to end |
| SelfTime.FlattenAppends | internal/adapters/outbound/otel/trace_provider.go:250-266 | the groups are taken one after the other |
| SelfTime.SumChildren | internal/adapters/outbound/otel/trace_provider.go:258-266 | the child totals over all groups are the true totals of the recorded durations, truncated once to 64 bits |
| SelfTime.DecodeSpans | internal/adapters/outbound/otel/trace_provider.go:250-293 | the same self-time law over the flattened groups, with every span's recorded duration |
| SelfTime.AdaptersAgree | internal/adapters/outbound/otel/trace_provider.go:250-293 | given the same trace with distinct ids, one in microseconds and one in nanoseconds, and child totals that fit in 64 bits of nanoseconds, the two adapters output the same spans, durations and self times |
| SelfTime.SelfWithinDuration | internal/adapters/outbound/jaeger/trace_provider.go:49-56 | each self time lies between zero and the span's duration, even if a child total overflows |
| SelfTime.SelfTimeIs | internal/adapters/outbound/jaeger/trace_provider.go:49-56 | a span whose child total fits in 64 bits has what its children leave of its duration, and zero if they outlast it |
| SelfTime.DurationsSplit | internal/adapters/outbound/jaeger/trace_provider.go:35-41 | every duration is charged to a present parent exactly once, or belongs to a span whose parent is absent |
| SelfTime.SelfTimeConserved | internal/adapters/outbound/jaeger/trace_provider.go:34-69 | self times add up to at least the durations of spans whose parent is absent, and to exactly that if and only if no children outlast their parent; overflowing sums change nothing about it |
| RefreshTokens.RefreshTokenRepository.Create | internal/adapters/outbound/inmemory/refresh_token_repository.go:23-28 | stores under the hash and changes nothing else |
| RefreshTokens.RefreshTokenRepository.FindByHash | internal/adapters/outbound/inmemory/refresh_token_repository.go:32-40 | finds revoked and expired tokens too |
| RefreshTokens.RefreshTokenRepository.Revoke | internal/adapters/outbound/inmemory/refresh_token_repository.go:43-57 | stopping at the first match in any map order revokes the one active token with the id, and only an active one |
| RefreshTokens.RefreshTokenRepository.RevokeFamily | internal/adapters/outbound/inmemory/refresh_token_repository.go:60-72 | rewriting in any map order revokes exactly the active tokens of the family and leaves replacements alone |
| RefreshTokens.RefreshTokenRepository.RevokeAllForUser | internal/adapters/outbound/inmemory/refresh_token_repository.go:75-87 | rewriting in any map order revokes exactly the active tokens of the user |
| Users.UserRepository.Create | internal/adapters/outbound/inmemory/user_repository.go:25-40 | refuses exactly when some stored e-mail equals the normalized one up to case, else stores it normalized |
| Users.UserRepository.FindByID | internal/adapters/outbound/inmemory/user_repository.go:43-51 | finds exactly the stored record |
| Users.UserRepository.FindByEmail | internal/adapters/outbound/inmemory/user_repository.go:54-64 | finds the one user with the address, in whatever order the map is read |
| Users.UserRepository.UpdateProfile | internal/adapters/outbound/inmemory/user_repository.go:93-114 | unknown id, address taken by another user, or the address replaced and nothing else |
| Users.UserRepository.UpdatePassword | internal/adapters/outbound/inmemory/user_repository.go:131-143 | replaces the hash and clears the must-change flag of a stored user only |
| Users.UserRepository.SetActive | internal/adapters/outbound/inmemory/user_repository.go:160-171 | sets the flag of a stored user only |
| Users.UserRepository.TouchLastLogin | internal/adapters/outbound/inmemory/user_repository.go:188-200 | stamps a stored user only |
| Users.UserRepository.Delete | internal/adapters/outbound/inmemory/user_repository.go:203-208 | removes that user and nobody else |
| AuthService.Auth.IssueSession | internal/core/usecase/auth.go:228-289 | draws, stores the new token, then revokes the superseded one: the in-place run is the store function of the proofs |
| AuthService.Auth.Login | internal/core/usecase/auth.go:86-104 | missing user, inactive user and wrong password are one and the same error with no effect; otherwise a new family |
| AuthService.Auth.Refresh | internal/core/usecase/auth.go:108-127 | the in-place run is the store function that RefreshAcceptedIff and ExpiredSessionRefused characterize, fault included |
| AuthService.Auth.StartSessionForUser | internal/core/usecase/auth.go:130-138 | trusts the record it is given, not the stored one |
| AuthService.Auth.Logout | internal/core/usecase/auth.go:143-153 | revokes the one active token and otherwise does nothing |
| AuthService.Auth.ChangePassword | internal/core/usecase/auth.go:199-221 | errors in order without effect; on success the new hash is stored and all active tokens of the user revoked |
| AuthService.Auth.UpdateProfile | internal/core/usecase/auth.go:166-184 | changes the address only, refused when taken by somebody else |
| AuthService.UserAdmin.CreateWithOptions | internal/core/usecase/user.go:52-89 | an invalid request, a failing generator or hasher, and a taken address are different errors that store nothing; otherwise one active user is added |
| AuthService.UserAdmin.SetActive | internal/core/usecase/user.go:136-145 | deactivation also revokes every active token of the user; activation revokes none |
| AuthService.UserAdmin.Delete | internal/core/usecase/user.go:158-167 | an id that trims to nothing is refused without effect; otherwise the user is gone and every active token revoked |
| SessionProofs.RotationKeepsTokens | internal/core/usecase/auth.go:260-275 | one rotation keeps one active token and one user per family and the single chain of replacements |
| SessionProofs.IssueRotatedKeepsInv | internal/core/usecase/auth.go:228-289 | issuing for an active token of an active user keeps the whole invariant |
| SessionProofs.StepKeepsInv | internal/core/usecase/auth.go:86-221 | every session and account operation keeps the invariant |
| SessionProofs.EveryRunIsSafe | internal/core/usecase/auth.go:86-289 | in every reachable store: at most one unrevoked token and one user per family, replacement links forming one acyclic chain per family in issue order, a stored active owner behind every unrevoked token, unique e-mails |
| SessionHistory.RevocationIsFinal | internal/adapters/outbound/inmemory/refresh_token_repository.go:43-87 | from any reachable store on, no token disappears and no revoked token ever changes, its time and replacement included |
| SessionHistory.DeadFamiliesStayDead | internal/core/usecase/auth.go:108-153 | a family whose tokens are all revoked never gets an unrevoked one again, however the run goes on |
| SessionHistory.ReuseEndsFamily | internal/core/usecase/auth.go:115-118 | presenting a revoked secret is refused and leaves its family without an unrevoked token |
| SessionHistory.LogoutEndsFamily | internal/core/usecase/auth.go:143-153 | in every store that atomic use cases reach, logging out with an active secret leaves its family without an unrevoked token |
| SessionHistory.LogoutEndsFamilyIff | internal/core/usecase/auth.go:143-153 | in any store with unique token ids a logout with an active secret ends its family if and only if no other token of it is active |
| SessionHistory.EndingUserEndsFamilies | internal/core/usecase/user.go:136-167 | password change, deactivation and deletion leave every family of the user without an unrevoked token |
| SessionHistory.IssuedSessionRefreshesOnce | internal/core/usecase/auth.go:108-127 | an issued secret, of a new family or a rotated one, is accepted before expiry, after any run, exactly if its token is still active, for the same user and family; once accepted it is refused after every further run |
| SessionHistory.LateRotationKeepsClaimIff | internal/core/usecase/auth.go:108-127 | a refresh that issues after its lookup has gone stale keeps one unrevoked token per family if and only if the token is still active or the family is dead, and in that case revives the family |
| SessionHistory.SplitRefreshForksFamily | internal/core/usecase/auth.go:108-127 | two refreshes that both read before either revokes leave two unrevoked tokens in one family |
| SessionHistory.LogoutLeavesFork | internal/core/usecase/auth.go:143-153 | in a family forked by two interleaved refreshes a logout with either secret leaves the other token active |
| SessionHistory.StartSessionKeepsOwnersIff | internal/core/usecase/auth.go:130-138 | starting a session keeps a stored, active owner behind every unrevoked token if and only if the given record is inactive or the stored one exists and is active |
| SessionAccounts.RefreshAcceptedIff | internal/core/usecase/auth.go:108-127 | a refresh is accepted exactly for a stored, unrevoked token that expires after now and whose owner is stored and active; every refusal is the same error, and changes nothing unless the token was revoked |
| SessionAccounts.ExpiredSessionRefused | internal/core/usecase/auth.go:119-121 | after any run, the secret of a session issued at t is refused by every refresh from t plus the time to live on, seven days by default |
| SessionAccounts.ReuseScope | internal/core/usecase/auth.go:115-118 | presenting a revoked secret revokes exactly the active tokens of its family, at that time, and touches no other |
| SessionAccounts.LogoutScope | internal/core/usecase/auth.go:143-153 | a logout revokes exactly the presented token if it is active, and touches no other |
| SessionAccounts.AccountScope | internal/core/usecase/user.go:136-167 | password change, deactivation and deletion revoke exactly what the user holds; activation revokes nothing |
| SessionAccounts.LoginAcceptedIff | internal/core/usecase/auth.go:86-104 | a login is accepted exactly if an active user answers to the address and the password is the one on record; only that user's login time changes among users |
| SessionAccounts.StartSessionAcceptedIff | internal/core/usecase/auth.go:130-138 | a session is started exactly for a record that says active, for its user |
| SessionAccounts.CreateAcceptedIff | internal/core/usecase/user.go:52-89 | a user is created exactly from an acceptable request with at least eight characters of password and an address nobody answers to, and then answers to it, active, with that password |
| SessionAccounts.ChangePasswordAcceptedIff | internal/core/usecase/auth.go:199-221 | a password is changed exactly for a stored user who gives the current one and at least eight characters |
| SessionAccounts.UpdateProfileAcceptedIff | internal/core/usecase/auth.go:166-184 | a profile moves to an address exactly if nobody else answers to it |
| SessionAccounts.PasswordHolds | internal/core/usecase/auth.go:86-104 | over every run without an operation on the account, its address accepts the password on record, while active, and no other |
| SessionAccounts.AfterCreation | internal/core/usecase/user.go:52-89 | after a creation and any such run the address accepts the given password and no other |
| SessionAccounts.AfterPasswordChange | internal/core/usecase/auth.go:199-221 | after a password change and any such run the new password is accepted, while active, and no other, the old one included |
| SessionAccounts.AfterSetActive | internal/core/usecase/user.go:136-145 | after a deactivation and any such run no password is accepted; after an activation the one on record |
| SessionAccounts.AfterDeletion | internal/core/usecase/user.go:158-167 | after a deletion the address accepts no password |
| Listing.AnalysisRepository.Save | internal/adapters/outbound/inmemory/analysis_repository.go:32-38 | stores under the result's own id and keeps the table keyed |
| Listing.AnalysisRepository.Find | internal/adapters/outbound/inmemory/analysis_repository.go:41-51 | finds exactly the stored analysis |
| Listing.AnalysisRepository.Filtered | internal/adapters/outbound/inmemory/analysis_repository.go:58-64 | every matching analysis once and no other, in whatever order the map is read |
| Listing.AnalysisRepository.ListAnalyses | internal/adapters/outbound/inmemory/analysis_repository.go:54-80 | for any offset and limit, the page is cut from the one listing that ListingInOrder and CriteriaNarrow describe, or the slice is out of range |
| Listing.SliceableIff | internal/adapters/outbound/inmemory/analysis_repository.go:68-72 | the slice is out of range, and panics, exactly for a negative offset or limit or an end of page that overflows 64 bits |
| Listing.NormalizedIsSliceable | internal/core/usecase/analysis.go:559-572 | no normalized request panics |
| Listing.LessIsStrictWeak | internal/adapters/outbound/inmemory/analysis_repository.go:84-122 | every column and direction is a strict weak order |
| Listing.ListingUnique | internal/adapters/outbound/inmemory/analysis_repository.go:54-122 | there is only one listing for a table and a filter, so map iteration and an unstable sort cannot show |
| ListingOrder.ListingInOrder | internal/adapters/outbound/inmemory/analysis_repository.go:84-122 | unless ascending is asked for, later before earlier, critical before high before medium before low before the rest, or high before medium before low confidence, and the greater id first on a tie; ascending is the reverse |
| ListingOrder.NewestFirst | internal/adapters/outbound/inmemory/analysis_repository.go:84-122 | by default creation times never rise along the listing, and ids fall where they are equal |
| ListingOrder.PageInOrder | internal/adapters/outbound/inmemory/analysis_repository.go:68-79 | a page holds the items of the listing from its offset on, up to its limit, and the total |
| ListingOrder.UnfilteredMatchesAll | internal/adapters/outbound/inmemory/analysis_repository.go:216-266 | nothing asked for, everything matches |
| ListingOrder.CriteriaNarrow | internal/adapters/outbound/inmemory/analysis_repository.go:216-256 | each criterion added keeps exactly the matching analyses that meet it: the severity, a named service, signal or provider of some evidence, both ends of the time window with the bounds included |
| ListingOrder.QueryNarrows | internal/adapters/outbound/inmemory/analysis_repository.go:258-266 | a query keeps exactly the analyses whose summary or id holds it somewhere, in any case |
| Sorting.StringLessMeans | internal/adapters/outbound/inmemory/analysis_repository.go:86-89 | a string precedes another exactly if it is a proper prefix or smaller where they first differ |
| Listing.ListingIgnoresPage | internal/adapters/outbound/inmemory/analysis_repository.go:54-80 | all pages of a filter are cut from one listing |
| Listing.ToPagination | internal/adapters/inbound/http/router.go:984-1006 | whether there is a next link and the offset it carries, with wrap-around |
| Listing.NextLinkRightIff | internal/adapters/inbound/http/router.go:991-1003 | the link leads to the items after the page, if any, if and only if offset + limit < 2^63; past that an empty page gets a negative offset |
| Listing.NormalizeStable | internal/core/usecase/analysis.go:559-572 | the filter a next link repeats is left alone by normalization, so following links is following pages of one filter |
| ListingOrder.NormalizedRequest | internal/core/usecase/analysis.go:559-572 | a limit from 1 to 100, 20 by default, no negative offset, the service trimmed, all else as asked |
| Text.TrimSpaceMeans | internal/core/usecase/analysis.go:560-560 | trimming cuts exactly the blanks at both ends |
| Text.LowerCaseMeans | internal/core/policy/recommendation.go:188-190 | lower-casing turns A to Z into a to z and touches nothing else |
| Listing.FollowFromOffset | internal/adapters/inbound/http/router.go:984-1006 | following next links from an offset yields exactly the rest of the listing |
| Listing.NextLinksVisitAll | internal/adapters/outbound/inmemory/analysis_repository.go:54-80 | following next links from offset zero ends and visits every matching analysis exactly once, in order |
| Stats.ComputeAnalysisStats | internal/core/usecase/analysis.go:433-464 | the in-place counters and ordered lists are those that CountersMean, TrendMeans and TopServicesMean describe |
| Stats.TopServiceCounts | internal/core/usecase/analysis.go:466-481 | the cut of the complete ranking, in whatever order the map is read; what the ranking is, is TopServicesMean |
| Stats.SortedTrendBuckets | internal/core/usecase/analysis.go:483-495 | one bucket per counted day, strictly increasing, in whatever order the map is read |
| Stats.RankingUnique | internal/core/usecase/analysis.go:471-476 | a counter has only one ranking by (count descending, name ascending) |
| Stats.TrendUnique | internal/core/usecase/analysis.go:483-495 | a counter has only one trend |
| Stats.StatsUnique | internal/core/usecase/analysis.go:433-495 | a list of analyses has only one statistics record, whatever order the counters are read in |
| Stats.TrendConserved | internal/core/usecase/analysis.go:442-462 | trend counts are positive, count the analyses of their day, and add up to the total |
| Stats.SeverityConserved | internal/core/usecase/analysis.go:444-447 | severity counts add up to the analyses that carry a severity, however the counter is listed |
| Stats.SeveritiesCount | internal/core/usecase/analysis.go:444-447 | that sum is the number of positions with a severity |
| Stats.TopServicesAreTheTop | internal/core/usecase/analysis.go:451-481 | the listed services are a strictly ranked prefix of the ranking, no omitted one above a listed one |
| StatsMeaning.TopServicesMean | internal/core/usecase/analysis.go:451-481 | at most ten services, each with the number of times it is named, counts never rising and names rising where they are equal; one is left out only if ten are named more often, or as often with an earlier name |
| StatsMeaning.CountersMean | internal/core/usecase/analysis.go:442-450 | the severity and confidence counters hold exactly the values that occur, each with the number of positions that carry it |
| StatsMeaning.TrendMeans | internal/core/usecase/analysis.go:457-458 | each bucket starts at a whole number of days and counts the analyses created within its day, and every analysis has one |
| StatsMeaning.DayMeans | internal/core/usecase/analysis.go:457-457 | the day of an instant is the one whole number of days whose day holds it |
| Recommendations.FallbackEvidenceIds | internal/core/policy/recommendation.go:78-93 | the loop with its early return yields the first five non-blank ids, or the given ones |
| Recommendations.MergeAll | internal/core/policy/recommendation.go:44-70 | the accumulating merge with its set of seen keys is the merge of all candidates so far |
| Recommendations.Apply | internal/core/policy/recommendation.go:41-76 | the policy's outcome as a function of the input, over suggestions and all four rules |
| Recommendations.MergedIsKept | internal/core/policy/recommendation.go:42-70 | the merge keeps exactly the candidates that come first with a non-empty key, in the order proposed |
| Recommendations.FirstCandidateKept | internal/core/policy/recommendation.go:47-56 | a suggestion wins over a rule with the same key |
| Recommendations.PolicyDistinct | internal/core/policy/recommendation.go:41-76 | keys of the outcome are non-empty and pairwise distinct |
| Recommendations.PolicyOutcome | internal/core/policy/recommendation.go:41-76 | the outcome is a rearrangement of the kept candidates, by priority, equal priorities in the order proposed, with every candidate's key |
| Recommendations.PolicyIdempotent | internal/core/policy/recommendation.go:41-93 | feeding the outcome back as suggestions with the same request and evidence returns the same list |
| RecommendationRules.SuggestionWins | internal/core/policy/recommendation.go:44-55 | the first suggestion with a key is in the outcome, and nothing else is with that key |
| RecommendationRules.ProgramTextsDistinguishable | internal/core/policy/recommendation.go:100-190 | the texts of the four rules have pairwise different, non-empty keys for every signal, which is all the outcome laws below ask of them |
| RecommendationRules.NoEvidenceOutcome | internal/core/policy/recommendation.go:100-111 | unless suggested, connecting an adapter is advised exactly without evidence, with priority 1 and no ids |
| RecommendationRules.ErrorOutcome | internal/core/policy/recommendation.go:118-132 | unless suggested, inspecting errors is advised exactly if some evidence mentions one, with priority 2, citing that evidence or else the first five |
| RecommendationRules.MultiServiceOutcome | internal/core/policy/recommendation.go:141-158 | unless suggested, mapping dependencies is advised exactly if two different services are involved, with priority 3 and the first five ids |
| RecommendationRules.MissingSignalOutcome | internal/core/policy/recommendation.go:165-186 | unless suggested, collecting a signal is advised exactly for the requested signals that no evidence carries though there is some, with priority 4 and the first five ids |
| RecommendationRules.IdsGathered | internal/core/policy/recommendation.go:192-201 | the ids of the chosen evidence are gathered in order, blank ones left out |
| RecommendationRules.FallbackMeans | internal/core/policy/recommendation.go:78-93 | without ids of its own a recommendation gets the first five, or all if fewer |
| LockProtocol.AnalysisLocker.LockFor | internal/adapters/outbound/inmemory/locker.go:48-58 | one mutex per analysis, created once, never shared between analyses |
| LockProtocol.MutualExclusion | internal/adapters/outbound/inmemory/locker.go:23-46 | in every interleaving at most one request possesses an analysis, and whoever unlocks a mutex is the one that locked it |
| LockProtocol.GaveUpNeverGranted | internal/adapters/outbound/inmemory/locker.go:39-44 | a waiter that gave up never comes into possession, and once it is done no mutex is held by it |
| LockProtocol.StepUsesWork | internal/adapters/outbound/inmemory/locker.go:23-46 | every step that is not a new call lowers a measure |
| LockProtocol.DrainingIsBounded | internal/adapters/outbound/inmemory/locker.go:23-46 | without new calls a run of steps is bounded by the measure |
| LockProtocol.NoDeadEnd | internal/adapters/outbound/inmemory/locker.go:23-46 | while a request is not done some step of the protocol is enabled, and one other than a release unless somebody is in possession |
| LockProtocol.QuietMeansFree | internal/adapters/outbound/inmemory/locker.go:23-46 | when only calls and cancellations are left, every request is done and every mutex free |
| Jobs.AnalysisJobRepository.Create | internal/adapters/outbound/inmemory/job_repository.go:24-30 | stores the job under its id |
| Jobs.AnalysisJobRepository.Find | internal/adapters/outbound/inmemory/job_repository.go:33-42 | finds exactly the stored job |
| Jobs.AnalysisJobRepository.ApplyTransition | internal/adapters/outbound/inmemory/job_repository.go:97-108 | changes one existing job without looking at its status; an unknown id is an error without effect |
| Jobs.AnalysisJobRepository.MarkRunning | internal/adapters/outbound/inmemory/job_repository.go:45-54 | the running transition of the pipeline, on one entry only |
| Jobs.AnalysisJobRepository.MarkPhase | internal/adapters/outbound/inmemory/job_repository.go:57-64 | the phase transition of the pipeline, on one entry only |
| Jobs.AnalysisJobRepository.MarkCompleted | internal/adapters/outbound/inmemory/job_repository.go:67-76 | the completing transition of the pipeline, on one entry only |
| Jobs.AnalysisJobRepository.MarkFailed | internal/adapters/outbound/inmemory/job_repository.go:79-86 | the failing transition of the pipeline, on one entry only |
| Jobs.AnalysisJobRepository.MarkCanceled | internal/adapters/outbound/inmemory/job_repository.go:89-95 | the canceling transition of the pipeline, on one entry only |
| Jobs.AnalysisQueue.EnqueueAnalysis | internal/adapters/outbound/inmemory/queue.go:53-62 | whichever ready case the select takes: an id sent to an open queue with room goes to the end, and every other outcome changes nothing; a closed queue is refused or the send panics |
| Jobs.AnalysisQueue.Receive | internal/adapters/outbound/inmemory/queue.go:134-148 | a worker gets the oldest id, from a closed queue too, and none only if its context is done or the closed queue is drained |
| Jobs.AnalysisQueue.Close | internal/adapters/outbound/inmemory/queue.go:35-40 | closes and keeps what is buffered |
| PipelineRefinement.EnqueueStep | internal/adapters/outbound/inmemory/queue.go:53-62 | every outcome of the queue's select is the machine's enqueue or its refusal, and the queue goes on representing the machine's buffer |
| PipelineRefinement.DeliverStep | internal/adapters/outbound/inmemory/queue.go:134-148 | a receive is the machine's delivery of that very id |
| ContextCache.AnalysisContextCache.Save | internal/adapters/outbound/inmemory/analysis_context_cache.go:33-43 | stores under the analysis id with its expiry |
| ContextCache.AnalysisContextCache.Find | internal/adapters/outbound/inmemory/analysis_context_cache.go:46-62 | hit, miss, or expired entry removed, when undisturbed |
| ContextCache.SavedUntilExpiry | internal/adapters/outbound/inmemory/analysis_context_cache.go:33-62 | a saved context is found until its time to live is over and missed and dropped from then on; other contexts are left alone |
| PipelineRefinement.UndisturbedLookupIsFind | internal/adapters/outbound/inmemory/analysis_context_cache.go:46-62 | the three-step lookup of a chat, when undisturbed, has the answer and leaves the table of the atomic Find |
| PipelineRefinement.UndisturbedJobCompletes | internal/core/usecase/analysis.go:189-238 | a delivered job left alone, every call succeeding, is completed after twelve steps with its own analysis stored as produced, its context cached and its cancel function released |
| PipelineRefinement.UndisturbedJobFails | internal/core/usecase/analysis.go:215-229 | a worker whose call fails, left alone, marks the job canceled for a cancellation and failed with the error otherwise, and stores nothing |
| PipelineRefinement.UndisturbedChatIsAnswered | internal/core/usecase/chat.go:123-163 | a chat about a stored analysis, left alone, is answered from that analysis, by way of the cache or not |
| PipelineProofs.WorkKeepsInv | internal/core/usecase/analysis.go:189-238 | every step of a worker, with every outcome, keeps the whole invariant |
| PipelineProofs.StepKeepsInv | internal/core/usecase/analysis.go:136-311 | every step of every participant keeps the whole invariant |
| PipelineProofs.RunKeepsInv | internal/core/usecase/analysis.go:136-358 | the invariant holds in every reachable state |
| PipelineTheorems.JobSafety | internal/core/usecase/analysis.go:189-279 | in every interleaving a completed job names its own, stored analysis at phase done and 100 percent, and the job of a returned worker is completed, failed or canceled whatever cancellations raced |
| PipelineTheorems.QueueIsFifo | internal/adapters/outbound/inmemory/queue.go:53-62 | enqueued ids are delivered exactly once, in order, the rest is buffered within capacity, and workers run exactly the delivered ids |
| PipelineTheorems.RegistryIsExact | internal/core/usecase/analysis.go:289-311 | the registry of cancel functions holds exactly the ids between registration and release |
| PipelineTheorems.CacheAgrees | internal/core/usecase/chat.go:284-299 | in every interleaving each cached context, and each context a chat works from, is that of the stored analysis, despite the unlocked delete of expired entries |
| PipelineTheorems.NothingGoesBack | internal/core/usecase/analysis.go:189-238 | from any reachable state on, progress never decreases, a stored analysis is never overwritten, and a returned worker's job stays over |
| PipelineTheorems.CanceledBeforeLookupNeverRuns | internal/core/usecase/analysis.go:194-200 | a job canceled before its worker looks it up stays canceled; nothing is ever run, saved, cached or registered for it |
| PipelineTheorems.TerminalStatesCanChange | internal/adapters/outbound/inmemory/job_repository.go:97-108 | reachable states from which one step turns a completed job canceled, and a canceled one completed |
| PipelineFinality.TerminalIsFinalIff | internal/adapters/outbound/inmemory/job_repository.go:97-108 | in every reachable state a terminal status stays on every continuation if and only if: for completed and failed, no canceler stands before its mark; for canceled, the worker is absent, has not looked the job up, is about to mark the cancellation, or is past its last mark |
| PipelineFinality.CancellationSticksIff | internal/core/usecase/analysis.go:246-279 | a cancellation that lands on a job is final if and only if the worker is absent or harmless at that moment; one between lookup and running mark is lost |
| PipelineFinality.CanceledOnlyIfAsked | internal/core/usecase/analysis.go:214-219 | if calls report a cancellation only after a canceler canceled the worker's context, a job is canceled only if CancelJob was called for it |
| PipelineFinality.StoredAnalysisIsServed | internal/core/usecase/chat.go:284-299 | from the moment the analysis a chat asks about is stored, the chat never ends for lack of a context, whatever expiries and deletes race with it |
| PipelineRecords.RecordTellsRun | internal/adapters/outbound/inmemory/job_repository.go:45-95 | in every interleaving a job is attempted at most once, has a start time exactly when it was and an end time when it is over, and shows a phase and percentage that were reported together |
| PipelineRecords.StageIsShown | internal/core/usecase/analysis.go:210-238 | while its worker is underway the job shows the phase and percentage of the worker's place |
| PipelineRecords.NothingIsMadeUp | internal/core/usecase/analysis.go:136-165 | in every interleaving a stored analysis is what the model produced when its job's worker called it, a job carries the request and time of its submission, and a failed one its worker's error |
| PipelineRecords.RegisteredWorkerIsSignaled | internal/core/usecase/analysis.go:304-311 | a canceler that finds its job's worker registered has canceled the worker's context by the time it is done |
| PipelineRecords.WorkFillsCache | internal/core/usecase/analysis.go:355-355 | once a worker has saved its analysis the context is found until the time to live is over |
| PipelineRecords.AnswerFillsCache | internal/core/usecase/chat.go:155-162 | once a chat is answered its context is found until the time to live is over |
| Domain.ContextLosesTraceIdOnly | internal/core/domain/analysis.go:385-400 | two analyses have the same context exactly if they differ in the trace id only |

## Left out

- HTTP handlers, middleware, server-sent events, metrics, logging, migrations: input and output plumbing.
- The Postgres and Redis repositories and the Asynq queue: their guards live in SQL, Lua and a foreign library.
- Cryptography: a digest is a free constructor (no collisions), a password hash is compared by equality, access tokens are not modelled, and fresh ids and secrets are successive values of one supply.
- Atomicity of session use cases is assumed in the theorems over runs: each call is one step. What a split refresh does is stated on its own.
- Language-model generators, responders and signal collectors: they succeed or fail as they please and return anything.
- Regex redaction, chat-scope keywords, severity reconciliation and the word lists behind `mentionsError`: the last is a predicate of the input, the others are covered by arbitrary results.
- The wording of the rules' advice: it is an input of the outcome laws, and the program's wording is one instance of it (`ProgramTexts`).
- Strings are ASCII for trimming, lower-casing and case folding, and `len` of a password counts characters.
- Floating-point rounding and NaN: tokens, rates and durations in milliseconds are reals. `time.Duration` saturation in the limiter is not modelled.
- SelfTime.AdaptersAgree: assumes that no child total exceeds 64 bits of nanoseconds (292 years), since microseconds overflow later.
- The random draw, the clock and context cancellation are inputs; fairness of `sync.Mutex` is not modelled, so the lock has a bounded measure and no dead end rather than a liveness theorem.
- Queue `Close` racing with an enqueue: nothing is sent after closing in the pipeline. A blocked send is an event that is not possible yet.
- Cancellation of a worker's outer context, other than through the choice of how its calls end. Redelivery: an id is delivered once, as the in-memory channel does. Job ids are fresh.
- The synchronous entry point that runs an analysis without a job, notifiers and webhooks, and validation of requests before a job exists.
- Chat history, feedback and the text of answers: a chat is modelled for the context it uses, and its question either is answered and saved or fails. The lock it takes is modelled on its own.
- User names, roles, preferences, listing and counting of users; setup, webhook, audit-log and provider administration: easy members.
- A failed step inside issuing a session after the token has been stored: the in-memory repository has no such failure.
- The aggregation delegated to SQL when a repository offers it; the thousand-item bound on what is aggregated.
