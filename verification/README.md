# Basilica: verified models of its protocols

Basilica rents GPU machines on a Bittensor subnet. Miners run executors,
validators ask miners for them, and a billing service charges for rentals. This
project models the stateful protocols behind that, and the arithmetic and text
formats they lean on, and proves what they keep over whole runs.

| file | what it models |
|---|---|
| `NonceGuard.dfy` | the replay guard of miner authentication, with the clock read before the lock is taken |
| `JwtSessions.dfy` | validator sessions, token revocation and its clean-up |
| `Retry.dfy` | exponential backoff and retrying by kind of error |
| `CircuitBreaker.dfy` | the circuit breaker, alone and as concurrent callers share it |
| `Billing.dfy` | the six billing event handlers, reservations and charges |
| `HealthMonitor.dfy` | executor health in memory and in the database |
| `Allocation.dfy`, `Leases.dfy` | assignment of executors to validators, and leases |
| `Registration.dfy` | publishing an axon address, reading it back, startup registration |
| `Weights.dfy` | normalisation of weight vectors |
| `Canonical.dfy`, `Location.dfy` | the texts that are signed, and location strings |
| `EventScan.dfy`, `Collateral.dfy` | scanning collateral events, and the collateral contract |
| `Basics.dfy`, `Text.dfy` | options, results, sums, splitting and joining, decimals |

Objects that the source updates in place are classes whose methods are proved
against specification functions on values. The theorems are about runs of those
functions: any number of steps, in any order and, where the source is
concurrent, in any interleaving. Clocks, random draws, signatures, hashes,
prices, chain submissions and network replies are parameters.

Eight properties do not hold for all inputs. Each is proved with the exact
condition under which the code meets it, next to a case in which it fails:

* a message passes the replay guard at most once if and only if no caller may
  wait 59 minutes for the lock (`NonceGuard.ReplaySafeExactly`; a wait of 59
  minutes in `SlowLockReplays`);
* `revoke_token` is permanent if and only if the expiry it is given covers the
  token (`JwtSessions.RevokeTokenPermanentExactly`; `ShortRevocationLapses`);
* no issued token is ever lost track of if and only if no session is replaced
  while its token still needs it and no revocation of a token without a session
  names another expiry (`JwtSessions.AccountedExactlyWhenCareful`;
  `ReissueLosesTrack`);
* every rental is settled exactly once if and only if no status change reopens
  an ended rental or ends one that is not active
  (`Billing.ExactlyOnceIffOrderly`; `ReopenedRentalChargedTwice`);
* the database never calls an unhealthy executor healthy if and only if that was
  so at the start or some check finds or makes a connection
  (`HealthMonitor.AgreesExactly`; `StaleRowOverstates`);
* the cap per validator of the business-logic strategy, documented as a maximum,
  is a maximum if and only if it is at least one
  (`Allocation.CapRespectedExactly`; `ZeroCapExceeded`);
* startup registration stops submitting once published if and only if the
  address is neither 0.0.0.0 nor 127.0.0.1 and has a port
  (`Registration.OncePublishedThenSilent`; `LoopbackIsLost`);
* open reclaims are covered by the collateral on their key if and only if no
  slash takes effect on a key that has any
  (`Collateral.CoveredExactlyWhenSpared`; `SlashUncovers`).

The text a miner signs stands for one message among all that the executor
accepts, since it accepts only UUIDs as nonces (`Canonical.AuthTextInjective`).
The builder of that text on its own, without the check of the nonce, is
unambiguous exactly when nonce and request id have no colon
(`Canonical.UnambiguousExactly`).

## Model

| member | source | states |
|---|---|---|
| NonceGuard.Precheck | crates/basilica-executor/src/miner_auth.rs:59-88 | a message gets past the checks before the lock exactly when it comes from the managing miner, decodes, is no older than the limit and no more than a minute ahead; exactly when each refusal is given; what it then carries to the lock |
| NonceGuard.MinerAuthService.constructor | crates/basilica-executor/src/miner_auth.rs:50-55 | a new service has used no nonce |
| NonceGuard.MinerAuthService.Admit | crates/basilica-executor/src/miner_auth.rs:90-103 | the locked section admits exactly the nonces not in the table; the new table holds the nonce at the instant the clock was read and drops what is older than the limit plus an hour |
| NonceGuard.MinerAuthService.VerifyAuth | crates/basilica-executor/src/miner_auth.rs:58-139 | a verification succeeds exactly when prechecks, nonce and signature pass; the error otherwise; the nonce is used up even by a bad signature |
| NonceGuard.MinerAuthService.CleanupExpiredNonces | crates/basilica-executor/src/miner_auth.rs:160-174 | keeps exactly the nonces younger than the limit plus an hour |
| NonceGuard.StepKeepsInv | crates/basilica-executor/src/miner_auth.rs:90-103 | in every interleaving an admitted nonce is stored with its instant, or the clock is past its retention |
| NonceGuard.PromptRunsAdmitOnce | crates/basilica-miner/src/request_verification.rs:101-134 | if every caller takes the lock less than 59 minutes after its clock read, no message is admitted twice in any interleaving of verifications and clean-ups |
| NonceGuard.SlowLockReplays | crates/basilica-executor/src/miner_auth.rs:68-103 | a wait of 59 minutes admits one message twice |
| NonceGuard.ReplaySafeExactly | crates/basilica-executor/src/miner_auth.rs:68-103 | replay is impossible in every interleaving if and only if waits stay under 59 minutes, or the age limit admits nothing at all |
| NonceGuard.UnseenNonceIsAdmitted | crates/basilica-miner/src/request_verification.rs:121-134 | in every run a waiting caller whose nonce was never admitted is admitted |
| JwtSessions.JwtAuthService.constructor | crates/basilica-miner/src/auth.rs:101-110 | both tables start empty, under the given issuer, audience and lifetime |
| JwtSessions.JwtAuthService.Create | crates/basilica-miner/src/auth.rs:89-111 | a service is made exactly for a secret of at least 32 bytes, with empty tables |
| JwtSessions.JwtAuthService.GenerateToken | crates/basilica-miner/src/auth.rs:114-161 | every field of the claims: hotkey and permissions of the grant, issuer, audience, ids, and the whole seconds of now and of the expiry; the session id is bound to the new token with its grant and exact expiry, and nothing else changes |
| JwtSessions.JwtAuthService.ValidateToken | crates/basilica-miner/src/auth.rs:164-191 | succeeds exactly for a signed token in its time, of this issuer and audience, not revoked and with a session; the errors in source order; success touches the session and nothing else changes |
| JwtSessions.JwtAuthService.RevokeOne | crates/basilica-miner/src/auth.rs:194-209 | the token is revoked with the expiry the caller names |
| JwtSessions.JwtAuthService.RevokeBySession | crates/basilica-miner/src/auth.rs:212-229 | the session goes and its token is revoked with the session's expiry, or the session is not found |
| JwtSessions.JwtAuthService.CleanupExpired | crates/basilica-miner/src/auth.rs:232-290 | exactly the expired sessions are retired, in some order, and then exactly the revocations a day past expiry are dropped |
| JwtSessions.CleanupIsCleaned | crates/basilica-miner/src/auth.rs:232-290 | whatever the order: the unexpired sessions stay as they were, and a token is revoked afterwards exactly as an expired session that holds it says, or else as before, unless that is a day past expiry |
| JwtSessions.RunConsistent | crates/basilica-miner/src/auth.rs:114-290 | in every reachable state a session holds the token it was made with, and token ids are unique |
| JwtSessions.TokensCarryTheirGrant | crates/basilica-miner/src/auth.rs:114-191 | in every run a token that validates gives back the hotkey and permissions it was granted for, and a session stores the whole grant of the token it holds |
| JwtSessions.DeadForever | crates/basilica-miner/src/auth.rs:164-290 | a token whose revocation outlives it, or whose time is up, never validates again in any later run, clean-ups and reissued session ids included |
| JwtSessions.RevokedSessionNeverReturns | crates/basilica-miner/src/auth.rs:212-290 | after `revoke_session` the session's token never validates again |
| JwtSessions.ShortRevocationLapses | crates/basilica-miner/src/auth.rs:194-290 | a revocation entry that can be dropped while its token is valid lets the token validate again after its session id is reissued |
| JwtSessions.RevokeTokenPermanentExactly | crates/basilica-miner/src/auth.rs:194-290 | `revoke_token` is permanent if and only if the expiry given plus a day reaches the end of the token's last valid second, or the token is over already |
| JwtSessions.AccountedExactlyWhenCareful | crates/basilica-miner/src/auth.rs:114-290 | throughout every run each issued token belongs to a live session, is revoked for its own lifetime or expired a day ago, if and only if every step is careful: only a settled session is replaced, and a revocation names the token's own expiry unless the token has a live session or expired a day ago |
| JwtSessions.EveryTokenAccounted | crates/basilica-miner/src/auth.rs:114-290 | with fresh session ids and truthful revokers, every issued token always belongs to a live session, is revoked for its own lifetime, or expired a day ago |
| JwtSessions.ReissueLosesTrack | crates/basilica-miner/src/auth.rs:114-161 | two tokens for one session id leave the first neither live nor revoked |
| JwtSessions.RunsValidateExactly | crates/basilica-miner/src/auth.rs:164-191 | with fresh session ids, in every run a token validates exactly while its own session lives, it is not revoked and its last valid second is not over |
| Retry.PresetIsSchedule | crates/bittensor/src/error.rs:192-236 | number of attempts, delays in milliseconds and jitter for each kind of retryable error |
| Retry.PlainRetrySleeps | crates/bittensor/src/error.rs:192-236 | whatever the operation does, a plain retry sleeps in all its attempts together no longer than the preset of its first error allows, jitter included: 3.3, 7, 9.4 or 2 seconds |
| Retry.FullScheduleSleeps | crates/bittensor/src/error.rs:192-236 | a retry that uses all its attempts sleeps at least 2637, exactly 7000, at least 7500 or exactly 2000 ms, by the kind of its first error |
| Retry.DelayBounds | crates/bittensor/src/retry.rs:29-62 | delays are capped, and jitter adds at most a quarter |
| Retry.DelayExact | crates/bittensor/src/retry.rs:34-46 | before jitter a delay is the initial delay times a power of the multiplier, in whole milliseconds, and the cap where that is larger |
| Retry.EveryJitterIsDrawn | crates/bittensor/src/retry.rs:58-62 | every jitter up to a quarter of the delay can occur |
| Retry.DelaysNeverShrink | crates/bittensor/src/retry.rs:34-46 | with a multiplier of at least one, delays before jitter never decrease |
| Retry.ExponentialBackoff.NextDelay | crates/bittensor/src/retry.rs:29-55 | hands out the delay of the current attempt and counts it, or nothing once the attempts are used up |
| Retry.ExponentialBackoff.Reset | crates/bittensor/src/retry.rs:65-67 | starts over |
| Retry.RetryExecutor.Execute | crates/bittensor/src/retry.rs:95-180 | result, number of calls and delays slept: all calls but the last met retryable errors and every retry was due before the total timeout; the delays keep to the schedule of the first error's kind; without a timeout, retryable failures throughout give 6, 4, 5 or 3 calls and the attempts reported as exceeded, and otherwise the first outcome that is not retried is the result |
| Retry.RetryExecutor.ExecuteWithConfig | crates/bittensor/src/retry.rs:183-248 | the same under a given schedule, where every error is retried |
| Retry.RetryExecutor.RetryLoop | crates/bittensor/src/retry.rs:124-171 | the loop terminates within one call plus the allowed attempts, with that result |
| Retry.ResultUnique | crates/bittensor/src/retry.rs:95-248 | that description fixes both the result and the number of calls |
| Retry.UntimedResult | crates/bittensor/src/retry.rs:95-248 | without a total timeout the first outcome that is not retried is the result if it comes within the attempts, and otherwise the attempts are reported as exceeded |
| CircuitBreaker.CircuitBreakerCell.constructor | crates/bittensor/src/retry.rs:300-308 | a new breaker is closed without failures |
| CircuitBreaker.CircuitBreakerCell.Execute | crates/bittensor/src/retry.rs:311-363 | the breaker after a call, and whether the operation was run |
| CircuitBreaker.BittensorService.GetMetagraph | crates/bittensor/src/service.rs:490-502 | a call alone goes through a clone and has the effect of the call on the stored breaker |
| CircuitBreaker.BittensorService.ResetCircuitBreaker | crates/bittensor/src/service.rs:768-772 | stores a new breaker with the service's settings |
| CircuitBreaker.BreakerIsItsHistory | crates/bittensor/src/retry.rs:298-363 | after any calls the breaker is a function of the operations actually run: its count is the number of failures since the last success, and it is open exactly at its limit |
| CircuitBreaker.GateFollowsHistory | crates/bittensor/src/retry.rs:316-335 | a call is let through exactly when fewer failures than the limit are trailing, or the last ended a recovery period ago |
| CircuitBreaker.FailureRate | crates/bittensor/src/retry.rs:311-363 | while everything fails, at most the limit plus one operation per recovery period is run |
| CircuitBreaker.SharedRunsAreExplained | crates/bittensor/src/service.rs:490-502 | however calls and resets overlap, the stored breaker is what the sequential breaker becomes on some of the stored calls, in storing order and not overlapping |
| CircuitBreaker.SharedBreakerShape | crates/bittensor/src/service.rs:490-502 | in every interleaving the stored breaker is never half open, is open exactly at its limit, and counts no more failures than were stored |
| CircuitBreaker.NonOverlappingRefines | crates/bittensor/src/service.rs:490-502 | without overlap, whatever resets come in between, the stored breaker is the sequential breaker on all calls since the last reset |
| Billing.BillingEventHandlers.ProcessTelemetryEvent | crates/basilica-billing/src/domain/billing_handlers.rs:66-182 | the usage a report stands for, its gaps filled in, is added exactly while the rental is active and its package known; otherwise nothing changes |
| Billing.BillingEventHandlers.Settle | crates/basilica-billing/src/domain/billing_handlers.rs:463-520 | one deduction of the price of the usage, one release of the reservation, the end and the cost recorded, whether or not deduction and release succeed; nothing at all if the package is unknown |
| Billing.BillingEventHandlers.ProcessStatusChange | crates/basilica-billing/src/domain/billing_handlers.rs:184-294 | the new books and the error for every payload, state and status, unknown ones included |
| Billing.BillingEventHandlers.ProcessCostUpdate | crates/basilica-billing/src/domain/billing_handlers.rs:296-341 | the recorded cost is replaced, or the error and unchanged books |
| Billing.BillingEventHandlers.ProcessRentalStart | crates/basilica-billing/src/domain/billing_handlers.rs:343-432 | a new rental with its reservation, nothing for one that exists, or the error, a refused reservation included, and unchanged books |
| Billing.BillingEventHandlers.ProcessRentalEnd | crates/basilica-billing/src/domain/billing_handlers.rs:434-544 | settles a rental that has not ended, does nothing for one that has |
| Billing.BillingEventHandlers.ProcessResourceUpdate | crates/basilica-billing/src/domain/billing_handlers.rs:546-598 | moves the rental to the package of its GPU model, if one is given |
| Billing.StartReservesOneHour | crates/basilica-billing/src/domain/billing_handlers.rs:365-405 | a new rental is active under a reservation of its own, for the price of one GPU hour |
| Billing.BalancedExactlyWhenOrderly | crates/basilica-billing/src/domain/billing_handlers.rs:184-294 | an event keeps every rental charged and released exactly as often as it has ended, and reserved once, if and only if it neither reopens an ended rental nor ends an inactive one by status |
| Billing.ExactlyOnceIffOrderly | crates/basilica-billing/src/domain/billing_handlers.rs:124-598 | over every sequence of events, settlement is exactly-once throughout if and only if every event is of that kind, however status changes and rental ends are mixed or repeated |
| Billing.ReopenedRentalChargedTwice | crates/basilica-billing/src/domain/billing_handlers.rs:184-294 | a rental started, ended, set active again and ended again has one reservation and two deductions |
| Billing.UsageIsAccepted | crates/basilica-billing/src/domain/billing_handlers.rs:124-182 | after any events the usage on the books is the sum of the telemetry that arrived while the rental was active |
| Billing.UsageIsSummed | crates/basilica-billing/src/domain/billing_handlers.rs:66-182 | after any events each field of a rental's usage is the sum over its accepted reports of that figure: GPU utilisation / 100 or 1, CPU percent / 100, memory MB / 1024, whole gigabytes of network and of disk traffic |
| Billing.RentalFollowsItsEvents | crates/basilica-billing/src/domain/billing_handlers.rs:124-598 | whatever happens to other rentals, user, package, state, times, cost and usage of a rental are what its own events make of it one after the other |
| Billing.ChargedForAcceptedUsage | crates/basilica-billing/src/domain/billing_handlers.rs:230-264 | in every orderly sequence an ended rental was charged the price, under its package when it ended, of exactly the usage accepted until then; neither charge nor usage changes afterwards, nor the cost unless a cost update says so |
| HealthMonitor.ExecutorManager.constructor | crates/basilica-miner/src/executor_manager.rs:236-253 | every configured machine starts healthy and unconnected |
| HealthMonitor.ExecutorManager.Create | crates/basilica-miner/src/executor_manager.rs:231-253 | a manager is made exactly if there is a machine, with fresh entries and the given limit |
| HealthMonitor.ExecutorManager.CheckHealth | crates/basilica-miner/src/executor_manager.rs:447-507 | entry and database after a check, for unknown machines, failed connections, failed calls and answers |
| HealthMonitor.ExecutorManager.HandleHealthSuccess | crates/basilica-miner/src/executor_manager.rs:510-550 | an answer clears the failures and decides health in memory and database alike |
| HealthMonitor.ExecutorManager.HandleHealthFailure | crates/basilica-miner/src/executor_manager.rs:553-570 | a failed call counts; at the limit the executor turns unhealthy and loses its connection; the database turns unhealthy at once |
| HealthMonitor.ExecutorManager.ListAvailable | crates/basilica-miner/src/executor_manager.rs:411-424 | every healthy executor exactly once and no other |
| HealthMonitor.AgreesExactly | crates/basilica-miner/src/executor_manager.rs:447-570 | in every run, healthy in the database means healthy in memory, connected and without failed checks, if and only if it meant so at the start or some check of the executor finds it connected at the start or can connect |
| HealthMonitor.StaleRowOverstates | crates/basilica-miner/src/executor_manager.rs:231-253 | a database row left healthy stays so beside a new entry whose connection fails, which is not listed |
| HealthMonitor.EntryIsItsHistory | crates/basilica-miner/src/executor_manager.rs:447-570 | an entry's failure count and health are a function of what its checks saw |
| HealthMonitor.ListedByOwnHistory | crates/basilica-miner/src/executor_manager.rs:411-424 | in every run over the fleet an executor is listed exactly by what its own checks saw |
| HealthMonitor.DropsOutExactlyAtLimit | crates/basilica-miner/src/executor_manager.rs:553-570 | an executor that answered healthy drops out of the list and loses its connection exactly at its limit of consecutive failures, and not before |
| Allocation.RoundRobin | crates/basilica-miner/src/validator_discovery.rs:357-395 | every validator holds exactly the executors dealt to it in turn, and is absent exactly when there are none |
| Allocation.RoundRobinDeals | crates/basilica-miner/src/validator_discovery.rs:357-395 | counting the validators with an endpoint in order, executor j is number j / m of validator j mod m, and nobody else holds anything |
| Allocation.FilterPicks | crates/basilica-miner/src/validator_discovery.rs:365-368 | a filter keeps exactly the validators with the property, in the order they were in |
| Allocation.DealtPortion | crates/basilica-miner/src/validator_discovery.rs:380-389 | with distinct hotkeys validator i gets the quotient of executors by validators, and one more if i is below the remainder |
| Allocation.DealtInTurn | crates/basilica-miner/src/validator_discovery.rs:380-389 | executor j is number j / m in the share of validator j mod m |
| Allocation.SharesDifferByAtMostOne | crates/basilica-miner/src/validator_discovery.rs:357-395 | shares of eligible validators differ by at most one |
| Allocation.RoundRobinExclusive | crates/basilica-miner/src/validator_discovery.rs:357-395 | no executor is dealt to two validators |
| Allocation.StakeBased | crates/basilica-miner/src/validator_discovery.rs:308-349 | just the validators with an endpoint and the minimum stake hold executors, each as many as the whole number nearest to its stake in TAO times the factor, at least one, or fewer because every executor is gone |
| Allocation.StakeServiceOrder | crates/basilica-miner/src/validator_discovery.rs:316-321 | the service order is a permutation of the eligible validators by descending stake |
| Allocation.SortIsStable | crates/basilica-miner/src/validator_discovery.rs:321 | validators of equal stake are served in the order they were in |
| Allocation.StakeBasedLaws | crates/basilica-miner/src/validator_discovery.rs:308-349 | shares in order of descending stake make up a prefix of the executors, none exceeds its quota, after one that fell short nobody gets anything, and less stake never means a larger share |
| Allocation.BusinessLogic | crates/basilica-miner/src/validator_discovery.rs:205-248 | a preferred validator holds the cap, any other with an endpoint one, or fewer because every executor is gone, and then nobody later in the two passes holds any; others hold none |
| Allocation.BusinessSharesArePrefix | crates/basilica-miner/src/validator_discovery.rs:205-248 | the shares of both passes in service order make up a prefix of the executors |
| Allocation.CapRespectedExactly | crates/basilica-miner/src/validator_discovery.rs:196-248 | no validator ever exceeds the cap if and only if the cap is at least one; the second pass ignores it |
| Allocation.ZeroCapExceeded | crates/basilica-miner/src/validator_discovery.rs:234-245 | under a cap of zero a lone reachable validator gets an executor |
| Allocation.ServedExclusive | crates/basilica-miner/src/validator_discovery.rs:205-349 | greedy serving gives no executor to two validators |
| Allocation.HighestStake | crates/basilica-miner/src/validator_discovery.rs:421-504 | all executors go to the first validator of highest recorded stake among those with an endpoint and enough of it, or to the configured one if it is among them; nothing is assigned exactly when there is none or no executor |
| Leases.MinerComms.constructor | crates/basilica-miner/src/validator_discovery.rs:54-68 | the assignment table starts empty |
| Leases.MinerComms.DiscoverAndAssign | crates/basilica-miner/src/validator_discovery.rs:77-153 | the stored table is replaced by what the strategy makes of the listing, and kept if chain or listing cannot be had |
| Leases.MinerComms.RequestExecutorLease | crates/basilica-miner/src/validator_comms.rs:555-616 | who is refused and why; with discovery on, exactly the listed executors assigned to the caller are offered, in listing order; with it off, all of them |
| Leases.AmongInOrder | crates/basilica-miner/src/validator_comms.rs:599-603 | what is offered keeps the order of the listing, executor by executor |
| Leases.InAmong | crates/basilica-miner/src/validator_comms.rs:599-603 | exactly the listed executors among the assigned ones are offered |
| Leases.EveryStrategyExclusive | crates/basilica-miner/src/validator_discovery.rs:204-505 | each of the four strategies hands out an executor at most once |
| Leases.LeasesAreExclusive | crates/basilica-miner/src/validator_comms.rs:581-616 | after any rounds and health checks no executor is offered to two validators against one table, even against different listings, and what is offered is healthy |
| Weights.CastsAreLossless | crates/bittensor/src/utils.rs:33-60 | order and uids are kept, no cast to 16 bits loses anything, and an output is the exact share of 65535 rounded down, or zero if all weights are |
| Weights.NormalizedSum | crates/bittensor/src/utils.rs:33-60 | the outputs sum to 65535 but for less than one per non-zero weight |
| Weights.LargerStaysLarger | crates/bittensor/src/utils.rs:49-59 | a larger weight never gets a smaller output |
| Weights.ScaleInvariant | crates/bittensor/src/utils.rs:33-60 | multiplying all weights by a constant changes nothing |
| Weights.FixedPoint | crates/bittensor/src/utils.rs:33-60 | weights that sum to 65535 are left as they are |
| Registration.BitsRoundTrip | crates/bittensor/src/discovery.rs:247-254 | the four bytes of an address come back from its 32-bit number |
| Registration.BitsAreBigEndian | crates/bittensor/src/service.rs:215-218 | the first byte of an address is the most significant of the published number |
| Registration.SocketRoundTrip | crates/bittensor/src/discovery.rs:266-269 | a printed socket address parses to itself |
| Registration.RoundTripExactly | crates/bittensor/src/discovery.rs:239-283 | a published IPv4 address is read back unchanged if and only if it is neither 0.0.0.0 nor 127.0.0.1 and has a port, and as nothing otherwise |
| Registration.DecodeExactly | crates/bittensor/src/discovery.rs:239-283 | any record is read as the IPv4 address of its low 32 bits with its port, if and only if it is of kind 4, has a port, and those bits are neither 0.0.0.0 nor 127.0.0.1 |
| Registration.LoopbackIsLost | crates/bittensor/src/discovery.rs:260-264 | the loopback address is published and not read back |
| Registration.Find | crates/bittensor/src/discovery.rs:140-176 | the first index of the hotkey, if it is there at all |
| Registration.ChainRegistration.constructor | crates/bittensor/src/registration.rs:69-86 | a new registration is unregistered with no uid |
| Registration.ChainRegistration.RegisterStartup | crates/bittensor/src/registration.rs:89-243 | the result, registration flag and time, discovered uid and submission of a startup in every case of skip, metagraph not fetched, missing hotkey, bad address, unchanged address and submission outcome; after an accepted success the chain advertises the wanted address |
| Registration.StartupAdvertises | crates/bittensor/src/registration.rs:137-229 | whatever record was there, a startup submits exactly when another address is read back, after an accepted one the hotkey's slot reads as the wanted address, and no other slot changes |
| Registration.OncePublishedThenSilent | crates/bittensor/src/registration.rs:137-166 | after an accepted submission any number of further startups submit never if the address can be read back, and otherwise every time |
| Canonical.AuthTextInjective | crates/basilica-executor/src/miner_auth.rs:84-157 | among messages whose nonce is a UUID in any accepted spelling, equal signed texts come from equal hotkeys, timestamps, nonces, request ids and body digests, whatever the request ids contain |
| Canonical.AuthTextParts | crates/basilica-miner/src/executor_auth.rs:29-30 | the text is its six parts in this order, with colons between them |
| Canonical.UnambiguousExactly | crates/basilica-miner/src/executor_auth.rs:17-31 | the builder alone, for arbitrary nonces, gives a text with one reading if and only if nonce and request id have no colon |
| Canonical.RequestText | crates/basilica-miner/src/request_verification.rs:65-98 | verb, path, timestamp and nonce each on a line, and the body digest on another exactly if there is a body |
| Canonical.RequestTextInjective | crates/basilica-miner/src/request_verification.rs:65-98 | for fields without newlines, equal texts come from equal fields, down to whether there was a body |
| Location.RoundTripExactly | crates/basilica-common/src/types.rs:133-181 | parsing undoes printing exactly for profiles whose parts are not empty, not "Unknown" and have no slash |
| Location.ParseIsStable | crates/basilica-common/src/types.rs:133-181 | parsing the print of a parsed string changes nothing more |
| Location.ParseReadsParts | crates/basilica-common/src/types.rs:136-168 | whatever the number of parts, the first three are city, region and country, a missing, empty or "Unknown" one being none |
| Location.PrintsParts | crates/basilica-common/src/types.rs:171-181 | prints the three parts with slashes between them, "Unknown" for a missing one |
| EventScan.Group | crates/collateral-contract/src/lib.rs:121-174 | fails with the error of the first log without block number or that does not decode; otherwise every block has exactly its recognised events in log order |
| EventScan.OneLogInBlock | crates/collateral-contract/src/lib.rs:123-174 | a sound log adds its event to its own block and no other, exactly if it was not removed and is a deposit, a reclaim or a slash |
| EventScan.InBlockInOrder | crates/collateral-contract/src/lib.rs:123-174 | a block has the events of the first logs, then those of the later ones |
| EventScan.CountsConserved | crates/collateral-contract/src/lib.rs:121-180 | over all blocks there are as many events as logs of the three kinds that were not removed |
| EventScan.LastBlock | crates/collateral-contract/src/lib.rs:84-105 | a scan is refused exactly when it would start beyond the last settled block; otherwise it ends there or after the allowed number of blocks |
| EventScan.ScannedExactlyOnce | crates/collateral-contract/src/lib.rs:84-105 | however the chain grows, scans resumed one past the last block scan every block up to where they got exactly once |
| Collateral.CallKeeps | crates/collateral-contract/src/CollateralUpgradeable.sol:162-395 | every call that does not revert keeps the books, whatever calls the paid miner makes from inside a payout |
| Collateral.BooksAlwaysBalance | crates/collateral-contract/src/CollateralUpgradeable.sol:162-395 | in every run the contract holds exactly the recorded collateral, every deposit is held, paid out or burned, pending amounts are those of the open reclaims, and no reclaim is paid twice |
| Collateral.PayoutSucceedsExactly | crates/collateral-contract/src/CollateralUpgradeable.sol:245-277 | with balanced books a payout reaches the transfer exactly when the reclaim is open, its deny timeout is past and the collateral was not slashed below it; it then takes that amount from that key alone, frees the key and pays the miner |
| Collateral.DenySucceedsExactly | crates/collateral-contract/src/CollateralUpgradeable.sol:290-309 | a denial succeeds exactly for the trustee, an open reclaim and a timeout not yet past; it removes the reclaim and its claim and moves no money |
| Collateral.DeniedReclaimIsUndone | crates/collateral-contract/src/CollateralUpgradeable.sol:190-309 | a reclaim denied in time leaves reclaims, claims, collateral and owners as they were |
| Collateral.SlashSucceedsExactly | crates/collateral-contract/src/CollateralUpgradeable.sol:321-350 | slashing succeeds exactly for the trustee, some collateral and a burn that goes through; it burns all collateral of that key, frees the key and touches nothing else |
| Collateral.DepositRoundTrip | crates/collateral-contract/src/CollateralUpgradeable.sol:162-277 | on a key that holds nothing, deposit, reclaim and payout bring the whole amount back to the sender and leave every key as it was, exactly when the amount is allowed, nobody else owns the key and the payout waits for the end of the decision time |
| Collateral.CoveredExactlyWhenSpared | crates/collateral-contract/src/CollateralUpgradeable.sol:162-350 | throughout every run, inside payouts too, each key holds at least what its open reclaims claim, if and only if no slash takes effect on a key with open reclaims |
| Collateral.SparedReclaimsPay | crates/collateral-contract/src/CollateralUpgradeable.sol:245-277 | after such a run a payout gets as far as the transfer exactly when the reclaim is open and its timeout past |
| Collateral.SlashUncovers | crates/collateral-contract/src/CollateralUpgradeable.sol:321-350 | a slash of a key with an open reclaim leaves the reclaim uncovered and unpayable |
| Collateral.ReclaimTakesAll | crates/collateral-contract/src/CollateralUpgradeable.sol:190-233 | a reclaim is the owner's, claims all that is available, and leaves nothing to reclaim for anybody |
| Collateral.SettingsChangeAlone | crates/collateral-contract/src/CollateralUpgradeable.sol:355-395 | administrators alone change trustee, timeout or minimum, to a value that is not zero, and nothing else with it |
| Collateral.InitialBooks | crates/collateral-contract/src/CollateralUpgradeable.sol:111-136 | the books of a new contract balance |

## Left out

- Retry.RetryExecutor.RetryLoop: the loop counts handed-out delays itself instead of holding a backoff object; `Retry.ExponentialBackoff.NextDelay` is proved against the same function it uses.
- Allocation.StakeBased: the product that is rounded is a real number, so the error of the floating point product is not modelled.
- Retry.DelaysNeverShrink: multipliers are real numbers, so floating point rounding, infinities and NaN are not modelled.
- Registration.RoundTripExactly: IPv4 only; the decoder prints other addresses as bare hexadecimal, which is no socket address.
- Registration.ChainRegistration.RegisterStartup: how the axon address is determined is a parameter.
- Leases.MinerComms.RequestExecutorLease: validating the token is a parameter here, and is modelled in `JwtSessions`.
- HealthMonitor.ExecutorManager.CheckHealth: an address that makes no URI, resource figures and the time of the last check are not modelled, and database writes succeed.
- Billing.BillingEventHandlers.Settle: the client's own figure for the cost, which is only logged, is not modelled, and storing the rental succeeds.
- Billing.BillingEventHandlers.ProcessTelemetryEvent: decimals are real numbers, and sums of byte counts wrap around as optimised builds have it.
- NonceGuard.MinerAuthService.VerifyAuth: the validator allowlist that the miner's twin checks after the nonce is not modelled, and instants do not overflow.
- JwtSessions.JwtAuthService.ValidateToken: whether the signature holds is a parameter.
- Collateral.BooksAlwaysBalance: conservation is about the contract as a whole; whose deposit a payout is made from is not part of it.
- Billing storage in SQL: repositories are the maps their traits describe; the tables do not keep a rental's reservation and package, and the usage query reads another table than telemetry writes, which these models do not follow.
- Telemetry JSON, pricing of packages and the audit trail.
- Signature checks, hashing, SS58 and JWT encoding, and the session queries.
- Lock-level deadlock between session and revocation tables: each operation is one step.
- Cancellation of a call in the middle of the circuit breaker, and overflow of 32-bit counters.
- The table from error variants to categories; an error is its category.
- Random and manual assignment strategies, the assignment database, and sorting of stakes that are not numbers.
- Roles of the collateral contract beyond trustee and an administrator flag, its upgrades and its emitted events; money forced into the contract.
- Collateral contract storage: it is modelled on values, with re-entrant calls as call trees, so update in place is not captured.
- SSH deployment, binary updates, configuration, servers, command line, SDK, metrics, validator scoring and payments.
