# GBI backend: a verified model

The GBI backend is a NestJS service for air-quality devices: it ingests telemetry, raises threshold
alerts, detects silent devices, sells premium subscriptions, and writes CSV and PDF reports. This
project models its state machines, protocols and printers in Dafny and proves what they keep. The
database is modelled as tables (maps and sequences), Redis as a map of keys with expiry instants,
and the clock as an integer passed into every step.

Each service is a class whose methods do the table operations one by one; their contracts tie the new
tables to a pure step function, and lemmas about that function carry the results. What the step functions
decide is stated a second time without them, in numbers and by table: for an alert in `AlertAnswers`, for a
token in `SessionLife`, for devices and groups in `DeviceRights`, for query rows in `TelemetryRows`, for a
report in `ReportReader`, and for premium and ingest on the methods themselves. Where the code
awaits between a read and the write that depends on it, the read and the write are separate steps, and
the results hold over every interleaving of them; "Left out" says which statements stay together.

| file | contents |
|---|---|
| `Common.dfy`, `SlidingWindow.dfy` | options, filtered sequences, sliding-interval counting |
| `Alerts.dfy`, `AlertAnswers.dfy`, `AlertRaces.dfy`, `AlertsService.dfy` | hysteresis machines, batch evaluation, what a message does in numbers, overlapping evaluations, the service over its tables |
| `Limiters.dfy`, `LockoutRaces.dfy`, `OtpLimits.dfy` | failure lockout, fixed-window limits and OTP limits over expiring Redis keys, alone and overlapping |
| `Premium.dfy`, `Payments.dfy`, `PremiumRows.dfy`, `PremiumHistory.dfy`, `PremiumService.dfy` | premium ledger, payment activation, ACTIVE rows, history, access guard |
| `Sessions.dfy`, `SessionLife.dfy`, `SessionRaces.dfy` | refresh-token rotation and lineage, the life of a token, overlapping refreshes |
| `Devices.dfy`, `ThresholdRaces.dfy`, `DeviceList.dfy`, `DeviceRights.dfy` | claim protocol, groups and thresholds, the cached device lists, who can change what |
| `Undisturbed.dfy` | the steps of split operations, put together again |
| `Offline.dfy` | ingest and the offline sweep, each in three phases: read, update, report |
| `Telemetry.dfy`, `TelemetryRows.dfy`, `Cache.dfy`, `TelemetryCache.dfy` | bucket width, bucketed aggregation, rounding, read-through caches and their keys |
| `CsvFormat.dfy`, `Reports.dfy`, `ReportReader.dfy`, `PdfLayout.dfy` | CSV writer and reader, CSV report, what a reader sees in it, PDF page layout |

`dafny verify dfyconfig.toml` checks the whole project.

## What the code does not keep

Where a property holds only sometimes, the exact condition is proved, and a run or input that breaks it
is given.

- The log of alerts alternates if and only if no user is assigned twice to a device
  (`AgreementIffDistinctUsers`; the claim protocol guarantees it, `AlertLoopSeesDistinctUsers`) and no
  event is logged for a key whose log has moved on since its state was read (`RunAlternatesIff`,
  `OverlappingMessagesAlertTwice`). The stored states agree with it if and only if they are also written
  in the order of the log (`AlertRaces.RunKeepsAgreementIff`, `StoredOutOfOrder`).
- The lockout bound grows by one for every attempt in flight beyond the first, and by maxAttempts - 1 for
  every deletion of the counter still owed when the interval begins; that is attained for every number
  of them (`LockoutBoundInFlight`, `BoundInFlightAttained`). No more can be owed than are in flight, which
  bounds it in their number alone (`LockoutBoundByInFlight`).
- OTP requests are spaced out if and only if none writes under a cooldown that it has not seen
  (`SpacingIff`); the hourly bound grows by two for every further request in flight
  (`HourlyBoundInFlight`, `ParallelRequestsAllAdmitted`).
- The OTP counter keeps an expiry if and only if it does not run out between being read and being
  incremented (`OtpCounterKeepsExpiry`); otherwise the user gets at most four more codes
  (`ExpiryRaceLocksOut`, `ExpiryRaceAtInput`).
- A premium user has exactly one ACTIVE row throughout if and only if every transaction is fresh
  (`RunKeepsOneRowIff`). Overlapping activations (`ActivatedTwice`), a renewal during the expiry job
  (`RenewedThenExpired`) and the payment of a premium user, which the code does not check
  (`PaymentStrandsRunningRow`, `StrandedPayer`), are not.
- A premium user has an ACTIVE row with the user's expiry throughout if and only if every renewal of
  a premium user has reached an ACTIVE row, or one it has missed ends at the new expiry; a renewal between
  whose statements a revocation and a payment commit has not (`RunKeepsAgreementIff`,
  `RenewalAcrossPayment`).
- The premium history stays chained if and only if no renewal or revocation commits on an outdated expiry
  (`RunKeepsChainIff`, `OverlappingRenewals`, `RevocationAcrossRenewal`).
- Deleting a user deletes the user's premium rows (`ClosedRowsAreFrozenIff`) and the subscription that
  keeps an order from being activated again (`PaymentExactlyOnceIff`, `OrderPaidTwice`).
- A password that is set with the profile ends no session (`PasswordWriteEndsSessionsIff`,
  `SessionOutlivesPassword`).
- A refresh token is exchanged once, and sessions end with a password change, if and only if no refresh
  issues its token after another exchange or a cut that it has not seen (`ExchangedOnceIff`,
  `LineageIff`, `TokenExchangedTwice`, `RefreshSurvivesChange`).
- A forced unassignment leaves the metadata row behind, so nobody can claim the device any more
  (`ForceUnassignDevice`), until the user named there is deleted or an unclaim of that user, checked
  before, commits late (`StrandedForGood`).
- A device never has both a group and its own threshold if and only if no write collides with what has
  come since its check (`MutexIff`, `BothWritten`).
- A cached device list is the current one if and only if no request stores a list that has changed since
  it read it, and no operation outdates it (`ListsStayCurrentIff`, `OverlappedFillIsOutdated`); which
  operations do is stated by `OutdatesIff`. A list is never older than its 300 seconds plus the time its
  request took from reading to storing it (`ListIsFresh`).
- Two ONLINE entries of a device have an OFFLINE entry between them if and only if no recovery is reported
  after another one since its message read the status (`OverlappingRecoveries`), or ahead of the report
  of the status it read (`RecoveryBeforeReport`), by `OfflineBetweenOnlineIff`. `OfflineBetweenOnline` says
  which order of steps is enough, `OnlineEntriesHold` what an ONLINE entry is worth otherwise.
- A sweep reports exactly the devices it marks if and only if it marks nothing or all it has listed
  (`SweepReportsWhatItMarksIff`, `SweepReportsRevived`).
- The CSV report can be read back if and only if it has no data rows or the device ID needs no quoting,
  because data cells are joined unescaped (`CsvRoundTrip`, `CommaInDeviceId`).
- A chart has 75 to 150 points if and only if its range is 75 minutes to 450 days, 525 to 1050 days, or
  2250 to 4500 days (`IntervalRatio`).

The code comment on the bucket width promises 20 to 30 points per chart; the code aims at 100 and the
model follows the code. The header branches for eleven and more columns and for two columns are never
needed: the first computes the same slots as the general one, the second is unreachable (`HeaderSlots`,
`ColumnCount`).

## Model

| member | source | states |
|---|---|---|
| AlertAnswers.FlapBoundInNumbers | src/alerts/alerts.service.ts:89-115 | for any readings of one key at a fixed limit, from any state, k events, two or more, take more than k - 1 units of total variation and more than k - 1 times a twentieth of the limit |
| AlertAnswers.AnswersInNumbers | src/alerts/alerts.service.ts:82-115 | of one message, for a user listed once: a trigger is logged and the state alerting exactly if it was normal and the reading is a number above the limit; a resolution, and normal, exactly if it was alerting and the reading is below the limit by more than one unit and by more than a twentieth; otherwise nothing |
| Alerts.BatchProjects | src/alerts/alerts.service.ts:78-117 | the events one message writes for a key are those of its own machine, once per occurrence of the user among the assignments |
| Alerts.BatchRefines | src/alerts/alerts.service.ts:61-118 | batch evaluation from the prefetched states leaves every assigned user's key in the state of its own machine and every other key unchanged |
| Alerts.SecondEvaluationSilent | src/alerts/alerts.service.ts:94-115 | evaluating the same message again writes nothing, whatever the tables, limits and users |
| Alerts.AgreementIffDistinctUsers | src/alerts/alerts.service.ts:66-117 | with messages served one at a time, every message keeps each key's log alternating and equal to the stored state, if and only if no user is listed twice |
| Alerts.RunRefines | src/alerts/alerts.service.ts:61-118 | over any run of messages served one at a time at fixed limits the event log of a key is the run of its machine on its own readings |
| AlertAnswers.LoggedAlertsInNumbers | src/alerts/alerts.service.ts:89-115 | the same of the rows in the event log of a user listed once |
| AlertRaces.StepKeepsSoundIff | src/alerts/alerts.service.ts:130-152 | an event's log row keeps log and states in agreement, up to states still to be stored, if and only if the log still leaves its key in the state that was read; its state upsert, if and only if it is the key's last event or another one is yet to be stored |
| AlertRaces.RunKeepsAgreementIff | src/alerts/alerts.service.ts:61-118 | over every interleaving of evaluations, log row by log row and upsert by upsert, log and states agree throughout, up to states still to be stored, if and only if no event is stale when it is logged and none is out of order when it is stored; with nothing left to store they agree |
| AlertRaces.RunAlternatesIff | src/alerts/alerts.service.ts:61-198 | whatever the order of storing, triggers and resolutions of every key alternate in the log in the end, if and only if no event was stale when it was logged |
| AlertRaces.AloneIsBatch | src/alerts/alerts.service.ts:78-117 | with nothing in between, an evaluation writes its events as one batch |
| AlertRaces.OverlappingMessagesAlertTwice | src/alerts/alerts.service.ts:61-118 | two messages of one device, the second of which reads between the log row and the state of the first one's event, trigger two alerts for one excess |
| AlertRaces.StoredOutOfOrder | src/alerts/alerts.service.ts:130-198 | a run of three messages in which no event is stale and a state is stored after that of a later event: the log ends with a resolution, and the key stays alerting |
| AlertsService.JoinKeyInjective | src/alerts/alerts.service.ts:74-76 | two entries of the prefetched state map collide only if user and parameter agree, as user IDs hold no colon |
| AlertsService.AlertTables.FetchStates | src/alerts/alerts.repository.ts:37-45 | looking a joined key up in the prefetched map gives the stored state, or normal if there is none |
| AlertsService.AlertTables.EvaluateWithThresholds | src/alerts/alerts.service.ts:61-198 | the double loop writes exactly the batch's events to log, notifications and states, although states change under it |
| AlertsService.AlertTables.Evaluate | src/alerts/alerts.service.ts:30-59 | the device's limits, else its group's, else the built-in ones; for every assigned user and limit the right answer in numbers, events for nobody and nothing else, one notification per event with the limit that counts; log and states stay in agreement when no user is assigned twice |
| Limiters.LockoutBound | src/auth/auth.service.ts:901-938 | with attempts served one at a time, between two clearings, no half-open interval of the lockout length holds more than 2 * maxAttempts - 2 recorded failures, or one if maxAttempts is 1 |
| Limiters.LockoutBoundAttained | src/auth/auth.service.ts:914-938 | for every configuration with at least three attempts some run reaches that bound |
| Limiters.NothingRecordedWhileLocked | src/auth/auth.service.ts:901-938 | with attempts served one at a time, after the failure that reaches the limit nothing is recorded for the lockout length |
| LockoutRaces.LockoutBoundInFlight | src/auth/auth.service.ts:901-938 | however EXISTS, INCR, EXPIRE, SET and DEL of at most m concurrent attempts interleave, no half-open interval of the lockout length records more than 2 * maxAttempts - 3 + m failures, plus maxAttempts - 1 for each counter deletion still owed when it begins |
| LockoutRaces.LockoutBoundByInFlight | src/auth/auth.service.ts:901-938 | so no interval records more than 2 * maxAttempts - 3 + m * maxAttempts failures, whatever is owed |
| LockoutRaces.BoundInFlightAttained | src/auth/auth.service.ts:901-938 | for every configuration with at least two attempts, and every number of owed deletions below the number of attempts in flight, some run reaches that bound, so two attempts in flight pass the bound for serial ones |
| LockoutRaces.AttemptAloneIsAfterFailure | src/auth/auth.service.ts:914-938 | with nothing in between, the commands of a failed attempt do what the serial step does |
| Limiters.FixedWindowBound | src/auth/auth.service.ts:951-968 | however the INCR and EXPIRE commands of concurrent calls interleave, no half-open interval of length ttl sees more than 2 * limit - 1 admissions |
| Limiters.WindowLimit | src/auth/auth.service.ts:951-968 | of the calls in one counter window exactly the first limit ones are admitted |
| Limiters.AuthGuards.CheckLockout | src/auth/auth.service.ts:901-909 | tells whether the identifier's lockout key is alive |
| Limiters.AuthGuards.RecordFailure | src/auth/auth.service.ts:914-938 | counts, sets the expiry on the first failure, locks and drops the counter on the last; no other key changes |
| Limiters.AuthGuards.ClearFailures | src/auth/auth.service.ts:943-946 | both keys of the identifier are gone, no other key changes |
| Limiters.AuthGuards.Attempt | src/auth/auth.service.ts:253-295 | locked attempts and restricted accounts change nothing, wrong ones are recorded, right ones clear |
| Limiters.AuthGuards.CheckAccountRateLimit | src/auth/auth.service.ts:951-968 | one call is an INCR step and, for the creator of the counter, an EXPIRE step of the interleaved machine |
| OtpLimits.SpacingIff | src/module/users/users.service.ts:140-168 | however requests overlap, admissions are at least 60 seconds apart if and only if no request writes while the cooldown of another one is alive |
| OtpLimits.HurryingOverlaps | src/module/users/users.service.ts:140-161 | in every run a request does so only if it had read by the time of the other one's admission, less than 60 seconds ago |
| OtpLimits.HourlyBoundInFlight | src/module/users/users.service.ts:150-168 | with at most m requests in flight no hour admits more than 2 * m + 7, even if the counter expires between a read and an increment |
| OtpLimits.OtpBound | src/module/users/users.service.ts:136-169 | with one request at a time, admissions are at least 60 seconds apart and at most nine in any hour |
| OtpLimits.ParallelRequestsAllAdmitted | src/module/users/users.service.ts:140-168 | any number of requests that read before any of them writes are all admitted |
| OtpLimits.OtpCounterKeepsExpiry | src/module/users/users.service.ts:151-168 | an admitted request leaves the counter with an expiry exactly unless the counter it saw is no longer alive when it increments |
| OtpLimits.ExpiryRaceLocksOut | src/module/users/users.service.ts:151-168 | a counter without expiry admits no more than is left of its window, ever |
| OtpLimits.ExpiryRaceAtInput | src/module/users/users.service.ts:151-168 | requests at 0 and, across the hour, at 3599 and 3600 seconds lead there: at most four more codes |
| OtpLimits.OtpLimiter.CheckRateLimit | src/module/users/users.service.ts:136-169 | a request alone is a begin and, if admitted, a finish step of the run model, and touches no other key |
| Premium.RunKeepsAgreement | src/module/premium/premium.repository.ts:72-249 | for every interleaving of guards and transactions with the row update of a renewal or revocation apart from its commit, a premium user has an ACTIVE row that expires at the user's premium expiry, if no row of the user is inserted between the row update and the commit of a renewal |
| Premium.RunKeepsAgreementIff | src/module/premium/premium.repository.ts:72-249 | over the same interleavings that holds throughout if and only if every renewal that commits for a premium user has extended an ACTIVE row, or an ACTIVE row it has not reached ends at the new expiry |
| Premium.RenewalAcrossPayment | src/module/premium/premium.repository.ts:130-157 | a renewal whose row update follows a revocation and whose user update follows a payment lets a user who has paid one day in for ten |
| Premium.AccessMeansActive | src/auth/guards/premium.guard.ts:61-81 | access granted without impersonation means an ACTIVE row that has not expired |
| Premium.ClosedRowsAreFrozenIff | src/module/premium/premium.repository.ts:131-178 | over every interleaving no row of a user is lost, owners and activations stay, and EXPIRED and REVOKED rows never change, if and only if the user had none or has not been deleted |
| Payments.PaymentsAlternate | src/module/subscriptions/payments/payments.service.ts:149-201 | over any interleaving of verify, webhook, administration and user deletion, activations of an order and deletions of its subscription alternate, and subscription, premium and ACTIVATE history rows of paid activations stay equal in number per user |
| Payments.PaymentExactlyOnceIff | src/module/subscriptions/payments/payments.service.ts:149-201 | a new order is activated at most once if and only if no payment transaction for it that found no subscription, with known plan and user, commits after its subscription has been deleted with its holder; it is activated at all if and only if some such transaction commits |
| Payments.OrderPaidTwice | prisma/schema.prisma:205 | whatever the tables, an unpaid order is activated twice if its payer is deleted and another user verifies it |
| Payments.PaymentAtLeastOnceIff | src/module/subscriptions/payments/payments.service.ts:155-200 | after a payment transaction with a known plan and user the order has its subscription, unless the transaction had found one that has since been deleted |
| PremiumRows.OneRowIffFresh | src/module/premium/premium.repository.ts:72-249 | a transaction keeps exactly one ACTIVE row with the right expiry per premium user, and none for others, if and only if it activates nobody who is premium by now, expires nobody whose expiry has moved, and as a renewal or revocation has reached all rows of the user |
| PremiumRows.RunKeepsOneRowIff | src/module/premium/premium.service.ts:28-141 | over every interleaving that holds throughout if and only if every transaction is fresh when it commits |
| PremiumRows.ServedOneRowIff | src/module/subscriptions/payments/payments.service.ts:171-182 | served one at a time, every request keeps it except the payment of a premium user |
| PremiumRows.ActivatedTwice | src/module/premium/premium.service.ts:28-55 | two administrators who activate one user at the same time leave two ACTIVE rows |
| PremiumRows.RenewedThenExpired | src/module/premium/premium.repository.ts:211-249 | a renewal between the expiry job's read and its transaction leaves a user without premium whose renewed row runs on |
| PremiumRows.PaymentStrandsRunningRow | src/module/premium/premium.repository.ts:211-249 | paying for a plan that ends before the running one leaves, after the expiry job, a non-premium user with a running ACTIVE row |
| PremiumRows.StrandedPayer | src/module/subscriptions/payments/payments.service.ts:171-182 | a user with ten days left who buys one day more loses premium two days later |
| PremiumHistory.RunKeepsReplay | src/module/premium/premium.repository.ts:102-200 | in every interleaving, folding a user's history gives the user's premium expiry |
| PremiumHistory.ApplyKeepsChainIff | src/module/premium/premium.repository.ts:147-200 | a transaction keeps every entry continuing the one before it, and renewals strictly increasing, if and only if it is no renewal or revocation that has read an outdated expiry, and no renewal that does not move the expiry forward |
| PremiumHistory.RunKeepsChainIff | src/module/premium/premium.repository.ts:102-200 | over every interleaving, a revocation's read apart from its write, the history stays chained throughout if and only if no renewal or revocation commits on an outdated expiry |
| PremiumHistory.OverlappingRenewals | src/module/premium/premium.service.ts:66-102 | two renewals that both read before either commits break the chain |
| PremiumHistory.RevocationAcrossRenewal | src/module/premium/premium.repository.ts:160-200 | a renewal that commits between a revocation's read of the expiry and its history entry breaks the chain, although no renewal was outdated |
| PremiumHistory.ServeKeepsHistory | src/module/premium/premium.service.ts:28-121 | served one at a time, every request keeps both the replay and the chain |
| PremiumService.PremiumTables.ActivatePremium | src/module/premium/premium.repository.ts:72-121 | row, user and history entry together, or nothing without the user |
| PremiumService.PremiumTables.RenewPremium | src/module/premium/premium.repository.ts:123-158 | all ACTIVE rows and the user get the new expiry, with a history entry |
| PremiumService.PremiumTables.RevokePremium | src/module/premium/premium.repository.ts:160-202 | with nothing between its statements: all ACTIVE rows are revoked, the user is not premium from now, the entry records the previous expiry |
| PremiumService.PremiumTables.ExpireOverdueSubscriptions | src/module/premium/premium.repository.ts:211-249 | exactly the premium users whose expiry lies before the job's instant lose premium, and their ACTIVE rows that ended before it expire; counted, and nothing else changes |
| PremiumService.PremiumTables.Activate | src/module/premium/premium.service.ts:28-64 | done exactly if the user exists and is not premium, the activation lies before the expiry and the expiry in the future; then the row, the user and the entry are written, access lasts until the expiry, and one row per premium user is kept; otherwise nothing changes |
| PremiumService.PremiumTables.Renew | src/module/premium/premium.service.ts:66-102 | done exactly if the user is premium until some instant before the new expiry; then all ACTIVE rows of the user and the user get it, with an entry, access lasts until it, and one row per premium user is kept; otherwise nothing changes |
| PremiumService.PremiumTables.Revoke | src/module/premium/premium.service.ts:104-121 | done exactly if the user is premium; then the user's ACTIVE rows are revoked, access ends, the entry names the previous expiry, and one row per premium user is kept; otherwise nothing changes |
| PremiumService.PremiumTables.ActivateFromPayment | src/module/subscriptions/payments/payments.service.ts:160-199 | the answers in the order of the checks; when done, row, user, entry and subscription with an expiry whole days after the payment; otherwise nothing, a duplicate order ID undoing all |
| PremiumService.PremiumTables.ActivateUserSubscription | src/module/subscriptions/payments/payments.service.ts:149-201 | done if and only if the order had no subscription before and has one after |
| PremiumService.PremiumTables.DeleteUser | src/module/admin/admin.repository.ts:288-356 | refused for missing users and complete profiles; otherwise the user and, by cascade, the user's rows in the premium tables are gone |
| PremiumService.PremiumTables.DeletionKeepsOthers | src/module/admin/admin.repository.ts:350-356 | the cascade takes the user's premium rows, entries and subscriptions, and keeps every other one |
| PremiumService.NewRowsAreDated | src/module/premium/premium.service.ts:38-64 | over every interleaving a row that appears is ACTIVE and either activated by an administrator with the activation before the expiry, or paid for from the instant of the payment on |
| Undisturbed.RequestServedAlone | src/module/premium/premium.repository.ts:72-249 | with nothing in between, guard, reads, row updates and commit of the run model are the request served at once |
| Undisturbed.RevocationGoesByTables | src/module/premium/premium.repository.ts:160-202 | a revocation whose read, row update and commit follow each other, however long after its guard, records the expiry and revokes the ACTIVE rows of that time |
| Undisturbed.RenewalReachesRows | src/module/premium/premium.repository.ts:130-157 | the row update of a renewal followed by its commit gives all ACTIVE rows of that time the new expiry |
| Sessions.RefreshConserves | src/auth/auth.service.ts:708-774 | an accepted refresh replaces exactly the old token by one new token of the same user and persistence; a refused one changes no live token |
| Sessions.SessionLineage | src/auth/auth.service.ts:708-877 | with calls served one at a time, in every reachable state each token has been exchanged at most once, and an acceptable token descends by rotations from one issuance to its user, with its persistence flag, after the user's last password change, reset or restriction; passwords set with the profile do not count |
| SessionLife.AcceptedIff | src/auth/auth.service.ts:708-897 | with calls served one at a time, from its issue on over every run, a token is accepted if and only if no operation has ended it (its logout or exchange, a password change, restriction or deletion of its user, a purge after its expiry), it has not expired, and its user is not restricted |
| SessionLife.EndedIsRefused | src/auth/auth.service.ts:708-797 | a token that an operation has ended is never accepted again, whatever follows |
| SessionLife.LogoutEndsSession | src/auth/auth.service.ts:779-783 | after its logout a token is never accepted again, whatever follows, and every other token is as before |
| SessionLife.RefusedBecause | src/auth/auth.service.ts:715-741 | which refusal a token meets, by its row and the restricted users |
| SessionLife.RefusedChangesNothing | src/auth/auth.service.ts:715-741 | a refused refresh deletes the token if it is unrevoked and expired, and changes nothing else |
| SessionLife.IssuedIsAccepted | src/auth/auth.service.ts:829-877 | a login or completed profile stores one fresh row, accepted until its lifetime has passed unless the user is restricted |
| Sessions.PasswordWriteEndsSessionsIff | src/auth/auth.service.ts:583-599 | a password write ends the user's sessions if and only if it is a change or reset, not a profile completion, or there was none to end |
| Sessions.OutlivedPasswordsCameWithProfile | src/auth/auth.service.ts:570-599 | with calls served one at a time, an acceptable token has outlived a password if and only if a password was set with the profile after its session began, and every password it has outlived was |
| Sessions.SessionOutlivesPassword | src/auth/auth.service.ts:521-599 | a token issued before the profile was completed with a new password is still accepted |
| SessionRaces.ExchangedOnceIff | src/auth/auth.service.ts:708-751 | over every interleaving of the steps of refreshes with everything else, each token is exchanged at most once in the end, if and only if no refresh issues a token after another one has exchanged what it had read |
| SessionRaces.LineageIff | src/auth/auth.service.ts:708-751 | over the same interleavings every usable token descends from an issuance since the user's last cut throughout, if and only if no refresh issues a token after a cut that came since its read |
| SessionRaces.TokenExchangedTwice | src/auth/auth.service.ts:708-751 | two refreshes of one token side by side both succeed |
| SessionRaces.RefreshSurvivesChange | src/auth/auth.service.ts:349-357 | a refresh that has read before a password change and issues after it keeps the session alive |
| Undisturbed.RefreshAlone | src/auth/auth.service.ts:708-751 | with nothing in between, read, revocation and issue of a refresh do what the refresh served at once does, and a refused one ends with the read |
| Undisturbed.RefreshEndsEarly | src/auth/auth.service.ts:743-751 | a refresh ends without a token if its old one is gone when it is to be revoked, or its user has been deleted when the new one is to be stored |
| Sessions.TokenTable.GenerateTokens | src/auth/auth.service.ts:829-877 | the user's expired and revoked tokens are purged and one fresh token is stored |
| Sessions.TokenTable.RefreshTokens | src/auth/auth.service.ts:708-774 | the answers in the order of the checks, the deletion of an expired token, rotation, and soundness of the lineage |
| Sessions.TokenTable.Logout | src/auth/auth.service.ts:779-783 | the token's row is revoked, and every other row is as before |
| Sessions.TokenTable.CompleteProfile | src/auth/auth.service.ts:570-599 | writes the password if one is sent, issues a token, touches no other live token of anybody, and keeps the lineage sound |
| Sessions.TokenTable.RestrictUser | src/module/admin/admin.service.ts:278-282 | exactly the user's tokens are gone, the others' rows are as before, and the lineage stays sound |
| Sessions.TokenTable.CleanupExpiredTokens | src/auth/auth.service.ts:883-897 | exactly the expired tokens are deleted and counted |
| Devices.RunKeepsClaims | src/module/devices/devices.repository.ts:29-156 | over every interleaving of claims, unclaims (ownership check and transaction apart), forced unassignments and user deletions a device has at most one active assignment, and each has the metadata row of the same user |
| Devices.AlertLoopSeesDistinctUsers | src/alerts/alerts.repository.ts:9-14 | in every such run the assigned users of a device are distinct |
| Devices.ClaimsAlternate | src/module/devices/devices.repository.ts:29-99 | over every interleaving successful claims of a device and releases of it alternate, so of overlapping claims of a free device at most one succeeds |
| Devices.StrandedForGood | src/module/devices/devices.repository.ts:72-97 | a device without holder but with a metadata row stays so, and every claim of it is refused, if and only if no step deletes the user named in that row or commits an unclaim of that user whose check came before |
| Devices.ThresholdMutex | src/groups/groups.service.ts:65-141 | with operations served one at a time, over all runs no device has both a group and its own threshold, and the conflict check of group thresholds never fires |
| DeviceRights.GroupOfIff | src/groups/groups.service.ts:29-185 | an operation leaves a device in a group exactly if the device joins it (added by the group's owner, who holds it, while it has neither group nor threshold), or was in it and is neither taken out by the owner nor loses the group with its owner or by its owner |
| DeviceRights.GroupThresholdIff | src/groups/groups.service.ts:110-185 | a group has a threshold after an operation exactly if its owner sets one while none of its devices has one, or it had one and neither is the threshold removed by the owner nor does the group end |
| DeviceRights.ThresholdIff | src/module/devices/devices.service.ts:120-146 | a device has a threshold after an operation exactly if one is set while it has no group, or it had one that is not removed |
| DeviceRights.MetaIff | src/module/devices/devices.repository.ts:123-156 | a metadata row stays, unchanged, exactly unless its user is deleted or unclaims its device |
| DeviceRights.AssignmentsAfter | src/module/devices/devices.repository.ts:130-140 | assignments stay in their places; exactly those of the unclaiming user and device, or of the device forcibly unassigned, are closed |
| DeviceRights.AssignmentsAfterDeletion | src/module/admin/admin.repository.ts:328-331 | the deletion of a user whose profile is not complete takes that user's assignments and no others |
| DeviceRights.ClaimAdds | src/module/devices/devices.repository.ts:41-85 | a claim adds an active assignment and a metadata row exactly if device and claimer exist, nobody holds the device and its display ID has no metadata row; otherwise nothing |
| ThresholdRaces.MutexIff | src/groups/groups.service.ts:29-141 | over every interleaving of checks and writes no device ever has both a group and its own threshold, if and only if no write collides with what has come since its check |
| Undisturbed.CheckAndWriteAlone | src/groups/groups.service.ts:29-141 | with nothing in between, a check and its write are the operation served at once, and a check that refuses leaves everything as it is |
| ThresholdRaces.BothWritten | src/groups/groups.service.ts:65-76 | a device that joins a group while its threshold is being set ends up with both, and the group can get no threshold any more |
| Devices.DeviceTables.WriteClaim | src/module/devices/devices.repository.ts:64-98 | both inserts or none, by the partial unique index, the foreign key of the user and the unique display ID, in that order; the claim invariant is kept |
| Devices.DeviceTables.WriteUnclaim | src/module/devices/devices.repository.ts:123-156 | the transaction of an unclaim, whatever has become of the ownership that was checked: the user's assignments of the device are closed and the user's metadata row of it is deleted |
| Devices.DeviceTables.ClaimDevice | src/module/devices/devices.repository.ts:29-99 | not found for unknown display IDs, otherwise the outcome of the claim for that device |
| Devices.DeviceTables.UnclaimDevice | src/module/devices/devices.service.ts:105-118 | check and transaction with nothing in between: refused for missing or foreign devices; otherwise the owner's assignment is closed and the owner's metadata row deleted, and the claim invariant is kept |
| Devices.DeviceTables.ForceUnassignDevice | src/module/admin/admin.repository.ts:234-239 | nobody holds the device afterwards, and if somebody did, its metadata row is left and nobody can claim it |
| Devices.DeviceTables.RemoveUser | src/module/admin/admin.repository.ts:288-359 | groups, group thresholds, metadata, assignments and the user are gone, devices leave the groups; refused for complete profiles |
| Devices.DeviceTables.AddDeviceToGroup | src/groups/groups.service.ts:29-86 | the refusals in the order of the checks, else the device joins the group |
| Devices.DeviceTables.StoreGroupThreshold | src/groups/groups.service.ts:110-141 | refused for foreign groups and for groups with an individual threshold in them |
| Devices.DeviceTables.RemoveGroup | src/groups/groups.service.ts:159-185 | threshold and group are deleted and the devices leave the group |
| Devices.DeviceTables.StoreDeviceThreshold | src/module/devices/devices.service.ts:120-137 | refused for devices in a group |
| DeviceList.ClaimChangesClaimerOnly | src/module/devices/devices.service.ts:29-33 | a claim changes only the list whose key it deletes |
| DeviceRights.ListShows | src/module/devices/devices.service.ts:35-62 | a list has one item for each device the user holds, with its display ID, its threshold and the user's own metadata row, and no others |
| DeviceList.OutdatesIff | src/module/devices/devices.service.ts:120-146 | an operation changes a user's list without deleting its key exactly if it takes one of the user's devices away, by unclaim, forced unassignment or deletion, or somebody else gives one other thresholds |
| Undisturbed.ClaimOwesDeletion | src/module/devices/devices.service.ts:29-33 | the end of a claim owes the claimer's key a deletion exactly if it gives the claimer the device, and no other key |
| DeviceList.ListWasTaken | src/module/devices/devices.service.ts:35-72 | whatever overlaps, a list served from the cache is the user's list at the instant some request read the tables, and that very list was stored less than 300 seconds ago |
| DeviceList.ListIsFresh | src/module/devices/devices.service.ts:35-72 | if every request stores its list within d seconds of reading it, a list served is the user's list at an instant less than 300 + d seconds ago |
| DeviceList.ListsStayCurrentIff | src/module/devices/devices.service.ts:29-72 | over every interleaving of misses, reads, fills, claims, operations and key deletions, a cached list is the current one throughout (while no deletion is owed) if and only if no step stores an outdated list or outdates a live one |
| DeviceList.OverlappedFillIsOutdated | src/module/devices/devices.service.ts:47-66 | a claim that commits and deletes the key between a request's read and its fill leaves the old list cached |
| DeviceList.DeviceListService.GetMyDevices | src/module/devices/devices.service.ts:35-72 | the cached list while it lives, else the current list, which is then cached for its lifetime; no other key changes |
| DeviceList.DeviceListService.ClaimDevice | src/module/devices/devices.service.ts:29-33 | a claim that succeeds deletes exactly the claimer's key, one that is refused none |
| DeviceList.DeviceListService.SetDeviceThreshold | src/module/devices/devices.service.ts:120-137 | the threshold is stored for whoever asks, and exactly the caller's key is deleted if it was |
| DeviceList.DeviceListService.RemoveDeviceThreshold | src/module/devices/devices.service.ts:139-146 | the threshold goes and exactly the caller's key is deleted, or neither |
| Cache.HitWasTaken | src/telemetry/telemetry-query.service.ts:112-180 | whatever overlaps, a hit serves the view that some request took after its miss, and that very view was stored less than the lifetime ago |
| Cache.HitIsFresh | src/telemetry/telemetry-query.service.ts:112-180 | if every request stores within d of taking its view, a hit serves the view of an instant less than the lifetime plus d ago |
| Undisturbed.RequestAlone | src/telemetry/telemetry-query.service.ts:112-180 | a request alone serves the cached value while it lives and changes nothing, else serves the view and caches it for its lifetime |
| Undisturbed.DeletionAlone | src/module/devices/devices.service.ts:29-33 | a deletion empties the key and pays one of the deletions owed |
| TelemetryCache.TelemetryHitWasQueried | src/telemetry/telemetry-query.service.ts:112-180 | cached rows are the query's rows on the samples that were there when some request queried them, and those very rows were stored less than 60 seconds ago |
| TelemetryCache.TelemetryHitIsFresh | src/telemetry/telemetry-query.service.ts:112-180 | if every request stores its rows within d seconds of querying them, rows served are those of an instant less than 60 + d seconds ago |
| TelemetryCache.ArrivalOutdatesIff | src/telemetry/telemetry-query.service.ts:150-180 | an arriving sample makes cached rows outdated if and only if it is asked for and brings a value or a row of its own |
| Cache.EqualKeysEqualQueries | src/telemetry/telemetry-query.service.ts:107-113 | bucketed queries with equal cache keys are equal |
| Offline.OnlySilentAreMarked | src/mqtt/offline-detector.service.ts:106-130 | after every run, the update of a sweep changes only devices silent for longer than the timeout at that instant, and only their status, to OFFLINE |
| Undisturbed.DeletedIsLeftAlone | src/module/admin/admin.repository.ts:369-379 | a deleted device is OFFLINE and stays as it is: its messages end at the read and no update marks it; the other devices are as before |
| Offline.OfflineBetweenOnlineIff | src/mqtt/mqtt.consumer.ts:234-513 | over every interleaving of messages that read, save and report a recovery, of deletions, and of sweeps that read, update and report device by device: two ONLINE entries of a device for one user have an OFFLINE entry between them, if and only if no message reports a recovery that another one has reported since it read the status, or ahead of the report of the status it read |
| Offline.OfflineBetweenOnline | src/mqtt/mqtt.consumer.ts:234-513 | so it holds in every run in which a message of the device is read with no other one of it under way and no sweep's report of it owed, and no sweep marks it while a recovery is to be reported |
| Offline.OnlineEntriesHold | src/mqtt/offline-detector.service.ts:119-191 | however messages and sweeps overlap, if every recovery is reported before a sweep marks the device again: a device whose user was last told ONLINE is not offline, or is deleted, or a sweep past its update has yet to report it |
| Offline.OverlappingRecoveries | src/mqtt/mqtt.consumer.ts:234-513 | two overlapping messages of an offline device both report its recovery |
| Offline.RecoveryBeforeReport | src/mqtt/offline-detector.service.ts:119-172 | one message handled between a sweep's update and its report: ONLINE is told before OFFLINE, a second time to a user who was last told ONLINE, and the device is online in the end |
| Offline.SweepReportsWhatItMarksIff | src/mqtt/offline-detector.service.ts:110-191 | a sweep reports exactly the devices its update marks if and only if it marks nothing or every watched device on its list is still dead |
| Offline.SweepAlone | src/mqtt/offline-detector.service.ts:119-191 | the update step and one report step for each listed device, with nothing in between, write what that result is about |
| Offline.WholeSweepReportsWhatItMarks | src/mqtt/offline-detector.service.ts:110-191 | an undisturbed sweep reports a device if and only if it marks it |
| Offline.SweepReportsRevived | src/mqtt/offline-detector.service.ts:110-144 | a device heard of between the two queries is online in the end and reported offline, if another one is still dead |
| Offline.SweepReportsRevivedAtInput | src/mqtt/offline-detector.service.ts:110-144 | a run from two silent devices that gets there |
| Offline.DetectedInTime | src/mqtt/offline-detector.service.ts:38-49 | if a sweep begins every period, a device heard of last at h is OFFLINE once the sweeps begun by h + timeout + period have made their update, whatever comes between their read and their update |
| Offline.FleetTables.HandleTelemetry | src/mqtt/mqtt.consumer.ts:234-513 | a message handled alone: nothing for unknown or deleted devices, without message ID or for an instant already stored; otherwise row and heartbeat together, ONLINE exactly if all metrics are numbers and none but the temperature is zero, else WARNING, and one ONLINE entry per user exactly if the device was OFFLINE and is ONLINE now; the same as the steps of the run model |
| Offline.SavedIffComplete | src/mqtt/mqtt.consumer.ts:360-465 | after every run, a message that is saved makes its device ONLINE exactly if pm25, pm10, tvoc, co2, humidity, noise and aqi are numbers other than zero and the temperature is a number, else WARNING; it is to report a recovery exactly if so and it had read OFFLINE |
| Offline.FleetTables.ReadDeadDevices | src/mqtt/offline-detector.service.ts:106-117 | exactly the undeleted, not yet offline devices silent for longer than the timeout |
| Offline.FleetTables.MarkAndReportDead | src/mqtt/offline-detector.service.ts:119-191 | dead devices at the cutoff become OFFLINE; if any did, all devices of the read are reported to their users |
| Offline.FleetTables.CheckOfflineDevices | src/mqtt/offline-detector.service.ts:67-191 | a sweep with nothing in between: reads the dead devices, marks them and reports all of them |
| Telemetry.AutoInterval | src/telemetry/telemetry-query.service.ts:44-88 | of the buckets, in whole milliseconds, one that comes nearest to 100 points for the range, the smaller of two |
| Telemetry.IntervalMonotone | src/telemetry/telemetry-query.service.ts:76-85 | a wider range never gets a smaller bucket |
| Telemetry.IntervalRatio | src/telemetry/telemetry-query.service.ts:51-85 | a chart has 75 to 150 points if and only if its range lies in one of three intervals |
| Telemetry.AggregateOrdered | src/telemetry/telemetry-query.service.ts:162-163 | result rows are strictly increasing in bucket and device |
| Telemetry.AggregatePartitions | src/telemetry/telemetry-query.service.ts:153-164 | a bucket and device have a row exactly when they have samples, and the row is the sum, count and maximum of exactly those |
| TelemetryRows.RowInNumbers | src/telemetry/telemetry-query.service.ts:153-164 | a query has a row for a device and instant exactly if the instant is a multiple of the width and some sample of the requested device lies in the range and in the width from there; the row is the sum, the number of values and the maximum of exactly those samples |
| TelemetryRows.CellsInNumbers | src/telemetry/telemetry-query.service.ts:220-231 | the average shown is the nearest whole number to sum / count, halves up, and the nearest tenth for temperatures |
| Telemetry.RowsAreUnique | src/telemetry/telemetry-query.service.ts:153-163 | any ordered table with a row exactly for the buckets and devices with samples, made of exactly those, is the one computed here |
| Telemetry.InsertChangesRowsIff | src/telemetry/telemetry-query.service.ts:156-163 | one more sample changes a query's rows exactly if it is asked for and has a value or no row yet |
| Telemetry.MinuteQueryIsGeneral | src/telemetry/telemetry-query.service.ts:135-163 | the one-minute query, which truncates timestamps to the minute, has the rows of the general query |
| Telemetry.QueryRowIff | src/telemetry/telemetry-query.service.ts:160-162 | a query has a row exactly for the buckets and requested devices with a sample in range |
| Telemetry.CoarsenRows | src/telemetry/telemetry-query.service.ts:156-162 | rows grouped again into coarser buckets give the sums, counts and maxima of the samples themselves |
| Telemetry.CoarseRowFromFineRows | src/telemetry/telemetry-query.service.ts:156-162 | a row of a k times wider query is its fine rows summed, counted and with the maximum of their peaks |
| Telemetry.AggregateConserves | src/telemetry/telemetry-query.service.ts:127-132 | sums and counts of the non-null values are conserved |
| Telemetry.RoundedPeakAtLeastAverage | src/module/devices/devices.service.ts:292-307 | in every row with a value the rounded peak is at least the rounded average |
| CsvFormat.FieldRoundTrip | src/reports/reports.service.ts:244-250 | a reader gets every field back from its escaped form |
| CsvFormat.TableRoundTrip | src/reports/reports.service.ts:244-250 | a reader gets every table of records with two or more fields back from its escaped form |
| CsvFormat.EscapedFormIsShortest | src/reports/reports.service.ts:244-250 | no text that reads as a table is shorter than its escaped form |
| Reports.ColumnCount | src/reports/reports.service.ts:181-193 | three to eleven columns, with exactly the requested parameters |
| Reports.HeaderSlots | src/reports/reports.service.ts:255-278 | device ID, name and location stand in three different cells, first, middle and last, and the other cells are blank |
| Reports.CsvRoundTrip | src/reports/reports.service.ts:192-311 | the report reads back as exactly its table if and only if it has no data rows or the device ID needs no quoting; the table is rectangular with one record per row of the device |
| ReportReader.ReportShows | src/reports/reports.service.ts:192-311 | for a device ID without comma, quote and line feed, or without rows, a reader gets: title and range centred, the three header slots, the labels Date, Time, deviceId and those of the requested parameters in their fixed order, and for each row of the device its date, time, device ID and, under each label, that parameter's value or an empty field |
| Reports.CommaInDeviceId | src/reports/reports.service.ts:290-309 | a report of a device with ID "A,1" does not read back as its table |
| Reports.DeviceHeaderRow | src/reports/reports.service.ts:255-278 | the array after the slot assignments is the escaped header |
| Reports.GroupByDevice | src/reports/reports.service.ts:232-239 | the groups are exactly the rows of each device in their order |
| Reports.GenerateCsv | src/reports/reports.service.ts:192-311 | byte order mark and the report's lines, of which ReportShows says what a reader gets |
| PdfLayout.GenerateReport | src/reports/pdf.service.ts:201-341 | every row is drawn once, in order, at its computed place; each page gets one footer with its own number; the page count is the formula's |
| PdfLayout.BreakBefore | src/reports/pdf.service.ts:273-307 | the loop breaks before a row exactly when the row's place is on a new page |
| PdfLayout.RowFits | src/reports/pdf.service.ts:273-278 | a row stays above the break threshold exactly when it is on the first table page or a further page has room for a row at all |
| PdfLayout.LetterRowsFit | src/reports/pdf.service.ts:47-59 | on Letter paper every row fits, with 31 rows on the first page and 34 or 35 on the others |
| PdfLayout.LetterPlaces | src/reports/pdf.service.ts:58-307 | page and height of every row on Letter paper and the number of pages, in points |
| PdfLayout.FullTable | src/reports/pdf.service.ts:16-27 | the cells of the report with all parameters, in points |
| PdfLayout.RowsInOrder | src/reports/pdf.service.ts:269-335 | later rows are on later pages, or below on the same page without overlap |
| PdfLayout.PagesFilled | src/reports/pdf.service.ts:273-307 | the document ends on the page of its last row, and the page number grows by at most one from row to row |
| PdfLayout.CellsTile | src/reports/pdf.service.ts:208-213 | the cells of a row touch, fill the table from edge to edge, and the table is centred |

## Left out

- MQTT, HTTP, BullMQ, Razorpay, SES and PDFKit: only their effects on tables, keys and drawing positions are modelled; signatures, hashes and tokens are booleans and fresh numbers.
- AlertRaces.RunKeepsAgreementIff: the limits and users of an evaluation are read together with its states.
- Premium.RunKeepsAgreementIff: of the statements of one transaction, a renewal's and a revocation's update of the rows and a revocation's and a payment's reads are steps of their own; the remaining ones are one step, at the commit.
- Devices.RunKeepsClaims: the statements of an unclaim's transaction are one step, and so are those of a forced unassignment and of a user deletion.
- OtpLimits.SpacingIff: the two reads of a request are one step, and so are its three writes.
- SessionRaces.LineageIff: a password change, a restriction and the purge with the insert of a new token are one step each.
- ThresholdRaces.MutexIff: the several reads of one check are one step.
- DeviceList.ListsStayCurrentIff: the assignments, metadata and thresholds of one list are read together; metadata edits and status changes, which also delete keys, are not part of the modelled list.
- Offline.OfflineBetweenOnlineIff: the assigned users of a device are fixed during a run, and the entries of one message, and those of one device in a sweep, are written together for all users; no result relates the entries of two users.
- Payments.PaymentsAlternate: the order, plan and user of a request are taken as given; whether the profile is complete is a parameter of a deletion.
- Limiters.LockoutBound: is the bound for attempts served one at a time; LockoutRaces has the one for concurrent attempts.
- Sessions.SessionLineage: is about calls served one at a time; SessionRaces has the condition for overlapping refreshes.
- Devices.ThresholdMutex: is about operations served one at a time; ThresholdRaces has the condition for overlapping ones.
- Devices.DeviceTables.UnclaimDevice: the deletion of the device's telemetry is not modelled.
- Devices.DeviceTables.RemoveUser: of the user's rows, alert states, notifications, event logs, tokens and premium rows are not in this table; tokens and premium rows are in Sessions and Premium.
- Thresholds and readings are real numbers; the value "not a number" is a separate reading and floating-point rounding is not modelled.
- Reports.GenerateCsv: number and date formatting are not modelled; formatted cells are texts without comma, quote or line feed, which is what digits, colons, hyphens and points give.
- PdfLayout.GenerateReport: glyph positions, watermark and logo are not modelled.
- Telemetry.AggregatePartitions: the SQL engine's grouping and ordering are modelled as ordered insertion, with averages kept as sum and count; RowsAreUnique says that no other result meets the query.
- Telemetry.RoundedPeakAtLeastAverage: the replacement of internal by display IDs in the rows and the grouping per device for charts are not modelled.
- Sending of server-sent events, e-mails and notifications other than the rows written for alerts.
- Old metadata rows keyed by internal device IDs, which a fallback in the report query still reads.
- Controllers, DTO validation, cookies, CSRF protection, report job lifecycle, logging and time zones.
