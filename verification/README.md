# A Dafny model of the transaction-monitoring pipeline

The project models the stateful core of an anti-money-laundering monitoring system and proves what its
components promise over every run: a feature store with bounded index windows and a transactional outbox,
the consumer and the dispatcher around it, a budget for paid narrative calls, the alert review protocol, a
per-subject rate limiter, and the arithmetic of features, evidence and scores.

Each component that updates state in place is a class whose methods are proved against a function of the
state before the call. The properties of whole runs are proved about those functions: a run is a sequence
of atomic steps, one per database transaction, by any number of workers, and a crash drops only what is in
memory.

| file | what it holds |
|---|---|
| `Basics.dfy`, `Sequences.dfy` | shared vocabulary; filtering, summing, sorting and multisets of sequences |
| `Limiter.dfy` | the token bucket with its bounded table of principals |
| `Budget.dfy`, `Breaker.dfy`, `LeaseBound.dfy` | attempts, daily quota, leases and circuit breaker of paid calls; reservations told from history; what the lease bound needs of the clock |
| `Alerts.dfy`, `ReviewProtocol.dfy`, `ReviewBudget.dfy`, `AlertManager.dfy`, `Outcomes.dfy` | alert tables and audit; the interleaved protocol; its budget; the manager that follows it; where alerts end up |
| `Features.dfy`, `Baseline.dfy`, `Meaning.dfy` | the feature computation, its robust baseline, and what single features say |
| `Store.dfy`, `Windows.dfy` | the feature store; what its index windows return |
| `Refinement.dfy`, `OrderIndependence.dfy`, `LateEvents.dfy` | the index against the global scan; independence of arrival order; what `late_event` means |
| `Identifiers.dfy`, `Acceptance.dfy` | accepted evidence and the stores that can come of it |
| `Truncation.dfy`, `Overstatement.dfy`, `BaselineOverstatement.dfy`, `NetworkOverstatement.dfy` | which features truncation leaves exact, and exactly when it can overstate the others |
| `Delivery.dfy`, `Settlement.dfy` | the consumer, the dispatcher and the pipeline they form; where messages and events end up |
| `Scorer.dfy` | the deterministic reference scorer |
| `Canonical.dfy` | canonical decimal text and evidence equality |
| `EndToEnd.dfy` | what features, scores and alerts promise together |

Modelling choices that hold throughout:

- Event times are whole microseconds; the clocks of the limiter and the budget are real numbers of seconds.
  A property that needs a clock that does not step back, or a fixed policy, says so in its `requires`.
- Money is exact, in ten-thousandths (`Canonical.TenThousandthsAreExact` says why nothing is lost), and
  ratios, weights and scores are real numbers. Rounding to six decimals is modelled, with ties to even.
- `log1p` is a function parameter nothing is known about, but for three values in
  `BaselineOverstatement.LogLike`. The squashing of the scorer is a function
  parameter assumed non-decreasing on [0, 1], 0 at 0 and at most 0.895 at 1, as 1 - exp(-2.25 x) is.
- SHA-256 is an injective constructor. A generated identifier is a parameter; a step that would use one
  already taken does not happen.
- Whether the store can be reached, the broker delivers or confirms, a deletion commits or is reported as failed, the provider
  completes, fails or is cancelled, and whether evidence meets the model contract, are parameters.
- Where code and documentation disagree, the code is followed. `docs/HYBRID_MONITORING.md:57` has malformed
  events dead-lettered; a JSON body that is no object raises an exception the consumer answers by requeueing.

## Model

| member | source | states |
|---|---|---|
| Limiter.PrincipalLimiter.Create | services/gateway/resource_limits.py:11-15 | A limiter exists only for positive rate, burst and table size; it carries the rate per second, burst and table size it was asked for and starts without buckets |
| Limiter.PrincipalLimiter.Admit | services/gateway/resource_limits.py:17-31 | One call answers 0 or the Retry-After seconds and rewrites the bucket table as the decision function on the old table says; from any valid table, an answer of 0 has lowered the level of the subject by exactly one token and any other answer has left it as it was |
| Limiter.AdmitKeepsInv | services/gateway/resource_limits.py:17-31 | Every decision under a non-decreasing clock keeps the table within `max_principals` and each bucket between empty and full |
| Limiter.IdleBucketIsFull | services/gateway/resource_limits.py:21-28 | A bucket idle for `max(60, burst/rate)` seconds has refilled completely, which is what makes dropping it harmless |
| Limiter.EvictionIsUnobservable | services/gateway/resource_limits.py:17-31 | Over every run with a non-decreasing clock, the requests not turned away by a full table are answered exactly as by a token bucket with an unbounded table that never evicts; the table never exceeds its bound |
| Limiter.StepLevel | services/gateway/resource_limits.py:17-31 | A decision about anyone lowers a subject's token level by exactly one if it admits that subject and leaves it alone otherwise, sweeps included |
| Limiter.NumberTellsLevel | services/gateway/resource_limits.py:17-31 | A request is answered 0 exactly if it is admitted, which lowers the level by one; no answer is negative |
| Limiter.RateBound | services/gateway/resource_limits.py:17-31 | In every closed time interval of every run a subject is answered 0 at most `burst + rate * length` times, across evictions and re-creations of its bucket |
| Limiter.ShortfallIsExact | services/gateway/resource_limits.py:28-31 | The seconds until a bucket holds a whole token are exact in both directions and shrink second by second while it waits |
| Limiter.RequestKeepsWaiting | services/gateway/resource_limits.py:17-31 | Neither the requests of others nor denied polls of its own move the instant a denied subject waits for |
| Limiter.RetryAfterIsExact | services/gateway/resource_limits.py:27-31 | With `burst >= 1`, the number k answered to a denied subject the table has room for counts down: j seconds later it is k - j while that is positive and 0 afterwards, whatever others and its own denied polls did in between; only a full table that has meanwhile dropped its refilled bucket can refuse it then |
| Limiter.AdmitsExactlyWithWholeBurst | services/gateway/resource_limits.py:27-31 | `burst >= 1` is exactly what admission needs: a limiter with 0 < burst < 1, which can be created, admits nobody in any run, and any other admits the first request it gets, whoever makes it and whenever |
| Limiter.TableFullIsExact | services/gateway/resource_limits.py:18-25 | Over every run from an empty table, a request is turned away, with the number 60, exactly when as many other subjects as the table holds were served less than a minute, or less than a refill of the whole burst, ago, and this one was not |
| Budget.NarrativeBudget.Reserve | services/alert-manager/ai_controls.py:69-107 | One transaction decides in the order attempted, circuit, daily quota, concurrency, and on a grant charges the day and inserts the lease; a denial changes nothing; `Breaker.ReservationIsDecided` says what is decided |
| Budget.NarrativeBudget.Finish | services/alert-manager/ai_controls.py:109-136 | Only a held lease is settled; a success at or after the deadline clears the breaker, a failure counts and, at the threshold, moves the deadline forward only |
| Budget.NarrativeBudget.GetStatistics | services/alert-manager/ai_controls.py:138-157 | The reported day is the UTC day of `now`; counter, active leases and breaker are those reservations are decided by, and an open circuit means an unattempted transaction would be refused for it |
| Budget.AttemptedIsFinal | services/alert-manager/ai_controls.py:74-77 | Over every run a transaction is granted at most once, never again once attempted, and is recorded as attempted exactly when it was or has been granted |
| Budget.DayCounts | services/alert-manager/ai_controls.py:83-97 | Each UTC day's counter grows by exactly the reservations granted that day and never passes the daily limit |
| Budget.BudgetHolds | services/alert-manager/ai_controls.py:69-136 | From the empty tables, over every run with a non-decreasing clock and fixed policy, restarts being no event: at most one reservation per transaction, every day's counter equal to its reservations and within the limit, and at most `concurrent_calls` unexpired leases at every later instant |
| Budget.LeaseLifetime | services/alert-manager/ai_controls.py:88-101 | A granted lease nobody finishes is active exactly until the call deadline plus five seconds |
| LeaseBound.LeaseBoundNeedsClock | services/alert-manager/ai_controls.py:83-101 | For every valid policy, and every end and instant: all runs ending there leave at most `concurrent_calls` active leases at the instant if and only if it is not before the end, or the end comes before any lease can have expired, or the daily quotas of all the days the leases can stem from fit the concurrency limit together; otherwise some run leaves one lease too many |
| Budget.CounterCountsReservations | services/alert-manager/ai_controls.py:94-101 | Over every run the daily counter is the number of attempts on record that were reserved that day |
| Budget.BreakerStaysConsistent | services/alert-manager/ai_controls.py:78-82 | Over every run the consecutive failures have reached the threshold exactly while a deadline is recorded |
| Budget.DeadlinesAreHonoured | services/alert-manager/ai_controls.py:78-82 | Whatever deadline the breaker holds after any first part of a run, nothing is granted before it in the rest, however late older successes arrive |
| Budget.ProbeDecides | services/alert-manager/ai_controls.py:118-132 | After cooldown one failed probe reopens the breaker for a full cooldown and one success closes it; before the deadline a success leaves it as it was |
| Budget.FinishIsIdempotent | services/alert-manager/ai_controls.py:113-117 | Finishing twice, or finishing what was never reserved, changes nothing |
| Budget.GrantsWithinCooldown | services/alert-manager/ai_controls.py:109-136 | While calls keep failing, each grant inside one cooldown occupies a slot that no finish inside it can hand on |
| Budget.HalfOpenBound | services/alert-manager/ai_controls.py:69-136 | While calls keep failing and finish before their leases expire, from any state in which the breaker has opened every window as long as the cooldown grants at most `concurrent_calls` reservations |
| Breaker.BreakerFollowsHistory | services/alert-manager/ai_controls.py:78-82 | Over every ordered run from empty tables the failures on record are the failed settlements since the last success that came with the breaker closed, and the breaker is open at an instant exactly if a failure that completed a streak as long as the threshold lies less than a cooldown back |
| Breaker.FailuresOpen | services/alert-manager/ai_controls.py:118-132 | As many failed settlements in a row as the threshold keep the breaker open for a cooldown from the last |
| Breaker.ReservationIsDecided | services/alert-manager/ai_controls.py:69-107 | Over every ordered run from empty tables a reservation is refused as attempted, circuit open, daily budget exhausted or concurrency limit by the first of these the history shows: an attempt on record, such a failure, as many reservations that day as the limit, as many calls possibly still running as allowed; without any the transaction is reserved and holds its slot, and a refusal changes nothing |
| Alerts.AlertRepository.Audit | services/alert-manager/alerts.py:100-110 | Appends one audit row and changes nothing else |
| Alerts.AlertRepository.CreateOnce | services/alert-manager/alerts.py:73-98 | Inserts row, index entry and audit entry only for a transaction without an alert; answers the stored alert either way |
| Alerts.AlertRepository.FinishNarrative | services/alert-manager/alerts.py:112-149 | Replaces the draft only where a pending draft of an open case awaits review, otherwise records that review was over; either way one revision and one audit entry; an unknown alert changes nothing |
| Alerts.AlertRepository.UpdateAlert | services/alert-manager/alerts.py:620-663 | Accepts an update only at the current revision and a verdict only on a pending draft; on refusal nothing changes and the reason is named, on acceptance the row, its revision and one audit entry carrying the digest of the reviewed draft |
| Alerts.CreateKeepsInv | services/alert-manager/alerts.py:73-98 | Creation keeps one row per transaction, revisions equal to audit counts, and every earlier row as it was |
| Alerts.FinishKeepsInv | services/alert-manager/alerts.py:112-149 | A late completion keeps the same invariant and lets its row only evolve |
| Alerts.UpdateKeepsInv | services/alert-manager/alerts.py:620-663 | An update keeps the same invariant and lets its row only evolve |
| Alerts.ReplaceKeepsInv | services/alert-manager/alerts.py:174-213 | Replacing one row by its next revision together with one matching audit entry keeps the invariant of all tables |
| Alerts.LateCompletionRespectsReview | services/alert-manager/alerts.py:119-128 | A late completion never touches status, verdict, reviewer, notes or assignment, and changes the draft only while a pending draft of an open case awaits review |
| ReviewProtocol.StepKeepsInv | services/alert-manager/alerts.py:326-384 | Every atomic step of any worker, cancellation, crash or review keeps the joint invariant of alert tables, budget ledger, workers and call history, and only extends what is durable |
| ReviewProtocol.RunKeepsInv | services/alert-manager/alerts.py:326-384 | The same over every interleaving |
| ReviewProtocol.OneAlertOneCall | services/alert-manager/alerts.py:326-384 | Over every interleaving of deliveries, redeliveries, cancellations, crashes and reviews, a transaction has at most one alert and at most one model call, and a draft other than the one an alert was created with exists only where a call was issued |
| ReviewProtocol.CallsComeLast | services/alert-manager/alerts.py:370-383 | Every model call is issued in a state whose tables already hold the alert with its template and the committed reservation |
| ReviewProtocol.CallIsPrepared | services/alert-manager/alerts.py:505-528 | A step issues no call, or one call for an alert and a reservation already stored |
| ReviewProtocol.RevisionIdentifiesContent | services/alert-manager/alerts.py:112-149 | Identity, score and evidence of an alert never change, its revision is the number of its audit entries, and along any run equal revisions mean equal rows |
| ReviewProtocol.VerdictBindsDraft | services/alert-manager/alerts.py:620-663 | A verdict submitted at the revision a reviewer loaded is on the draft they loaded, whatever raced in between; its digest is the only one ever recorded for the alert, and draft and verdict stay for good |
| ReviewProtocol.DeliveryIsStored | services/alert-manager/alerts.py:333-384 | A message that calls for an alert has one stored once its worker takes its next step, whatever others did in between; with nobody else moving, an alert is stored exactly if there was one or the message calls for it, and a new row is the alert the message calls for |
| Outcomes.DraftsAwaitReview | services/alert-manager/alerts.py:358-379 | Over every interleaving an alert has a draft exactly if its score reaches the drafting threshold, the draft is pending review exactly until a verdict is on record, and a verdict is on record exactly if the alert is approved or rejected |
| Outcomes.UpdatesAreExact | services/alert-manager/alerts.py:620-663 | Over every interleaving an update of any kind is accepted exactly if it names the current revision of a stored alert and any verdict is the first one on a draft; it then changes in that row what it asks for and nothing else, with one audit entry and, for a verdict, the digest of the draft; otherwise it changes nothing and the refusal names what is missing |
| Outcomes.NoLostUpdate | services/alert-manager/alerts.py:174-213 | Whatever happens between loading an alert and an update that names the loaded revision, the update changes nothing unless the row is still exactly the loaded one |
| Outcomes.DeliveryEnds | services/alert-manager/alerts.py:326-384 | How one undisturbed delivery ends in every case: nothing stored, an alert without a draft, the template kept for the reason found (no client, invalid evidence, the obstacle to a paid call, a failed or cancelled call), or the text of the model with its name, pending review; with the call and its settlement on record exactly if one was made |
| ReviewBudget.LedgerFollows | services/alert-manager/alerts.py:511-560 | Every run of the protocol is, for its ledger, a run of the budget under the same clock |
| ReviewBudget.CallsStayWithinBudget | services/alert-manager/alerts.py:505-560 | Over every interleaving with a non-decreasing clock, the model calls whose reservation fell on one UTC day are within the daily limit, and the workers between reservation and settlement whose lease is unexpired within the concurrency limit |
| AlertManagement.AlertManager.ProcessScoredTransaction | services/alert-manager/alerts.py:326-384 | An undisturbed delivery leaves exactly the tables and ledger of the steps of the protocol, answers with the alert the tables hold, refuses scores outside [0, 1], and is interrupted exactly if its call was made and cancelled; `Outcomes.DeliveryEnds` says what those tables hold |
| AlertManagement.AlertManager.EnhanceNarrative | services/alert-manager/alerts.py:505-563 | Drafting leaves the tables the protocol's steps leave on every path: invalid evidence, denial, completion, failure and cancellation |
| AlertManagement.AlertManager.CallModel | services/alert-manager/alerts.py:515-553 | The call and its settlement leave the tables the protocol's steps leave for each provider outcome |
| Baseline.MedianWithin | services/feature-engine/features.py:286-287 | The median of a sample lies in any range that holds more than half of it |
| Baseline.UpwardZPerm | services/feature-engine/features.py:286-289 | The robust z does not depend on the order of the sample |
| Baseline.RobustBaseline | services/feature-engine/features.py:274-295 | If more than half of the compatible log amounts lie in [lo, hi], then the centre is in [lo, hi], the MAD at most hi - lo, and z between max(0, (x-hi)/max(1.4826(hi-lo), 0.1)) and max(0, (x-lo)/0.1), however extreme the others are |
| Features.VelocityPerm | services/feature-engine/features.py:200-248 | Velocity and structuring features depend on the multiset of the history only |
| Features.BehaviorPerm | services/feature-engine/features.py:274-295 | Behaviour features depend on the multiset of the history only |
| Features.NetworkPerm | services/feature-engine/features.py:297-357 | Network features depend only on the multisets of incoming and outgoing recent transfers, so self-transfers, mirrors and repeats of them do not matter |
| Features.NearThresholdSub | services/feature-engine/features.py:250-272 | Fewer observed transactions never raise the near-threshold count |
| Meaning.TimeOfDay | services/feature-engine/features.py:402-408 | Hour, weekend and off-hours of any moment given as day, hour and rest, for all days before and after 1970 |
| Meaning.NewAccount | services/feature-engine/features.py:377-399 | The new-account feature is raised exactly for an unknown account or customer, or one opened less than 90 days before |
| Meaning.VelocityIsConsistent | services/feature-engine/features.py:200-248 | The short window never exceeds the long one, in count or total, and average times count is the total |
| Meaning.ReciprocalFlow | services/feature-engine/features.py:345-354 | The reciprocal-flow feature is raised exactly when a transfer of the last hour in the opposite direction has the same currency and an amount within the stated band, without division |
| Meaning.PassThrough | services/feature-engine/features.py:331-344 | The pass-through feature is raised exactly when the payment is 80% to 120% of what three or more senders brought in the same currency within the hour, without division |
| Meaning.AmountFlags | services/feature-engine/features.py:154-172 | The amount flags: near the first threshold from four fifths of it on, exceeded from it on, never both; round for whole thousands; convertible as the currencies say |
| Meaning.HistoryHolds | services/feature-engine/features.py:174-190 | The history is what the account did before, within the long window or seven days, whichever is longer, oldest first |
| Meaning.OneMoreObserved | services/feature-engine/features.py:200-272 | What one more observed transaction adds to every count and total: counts span currencies and totals do not, each from the very start of its window |
| Meaning.NothingObserved | services/feature-engine/features.py:200-272 | With nothing observed every count and total is zero, but for a near-threshold candidate itself |
| Meaning.VelocityScores | services/feature-engine/features.py:219-248 | Velocity rises evenly to full at two transactions a day, acceleration at two a day more in the short window than in the long one, structuring at four near-threshold amounts; the deviation is the distance in averages, at most five |
| Meaning.AnomalyScores | services/feature-engine/features.py:284-295 | The anomaly score rises evenly from a robust deviation of 3 to full at 8, once the sample suffices, and is zero before |
| Meaning.SampleIs | services/feature-engine/features.py:275-283 | The sample is what shares currency and direction, an unspecified direction being one, within the long window |
| Meaning.FlowsCount | services/feature-engine/features.py:297-336 | Fan-in counts the accounts that paid this one within the hour, fan-out those it paid or is paying, with a score rising evenly from three to ten; without a transfer to another account nothing is computed |
| Meaning.ListingOrders | services/feature-engine/features.py:359-369 | Country risk orders the listings, and the flags say exactly which listing holds the country |
| Meaning.DiligenceOrders | services/feature-engine/features.py:371-400 | The due-diligence gap falls with the level of diligence and is full without a customer on file |
| Meaning.AccountAge | services/feature-engine/features.py:390-399 | The age score rises evenly over 365 whole days |
| Store.FeatureStore.Open | services/feature-engine/store.py:49-54 | A store exists only for limits of at least one and starts empty |
| Store.FeatureStore.PutEntity | services/feature-engine/store.py:88-102 | Upserts one customer or account and nothing else |
| Store.FeatureStore.ComputeSnapshot | services/feature-engine/store.py:117-155 | The loop over the `source` and `target` columns and the lookups yield the specified snapshot of the current tables |
| Store.FeatureStore.Evaluate | services/feature-engine/store.py:157-187 | Answer and new tables of a preview, a first persist, a replay, a conflict, invalid evidence and a full outbox, with nothing written except by a first persist |
| Store.FeatureStore.Save | services/feature-engine/store.py:189-219 | Appends the immutable row, with source and target only for a transfer, together with its outbox event |
| Store.FeatureStore.Pending | services/feature-engine/store.py:236-241 | The oldest pending events in sequence order, up to the limit |
| Store.FeatureStore.MarkPublished | services/feature-engine/store.py:243-245 | Deletes the outbox row of one sequence number and nothing else |
| Store.EvaluateKeepsInv | services/feature-engine/store.py:157-219 | Stored identifiers stay distinct and every row keeps the identity, time and edge of its evidence |
| Windows.WindowOnPayloads | services/feature-engine/store.py:108-115 | What an index window returns is a function of the stored evidence, and its flag is set exactly when more than `limit` rows match |
| Windows.TruncationIsExact | services/feature-engine/store.py:108-115 | The kept rows are exactly the `limit` greatest matches by event time descending, identifier ascending; all of them when they fit |
| Windows.RecentSurvives | services/feature-engine/store.py:108-115 | Of any most recent part of a window truncation keeps all it has room for: the whole part when that fits the limit, nothing but that part when it does not |
| Windows.KeptPerm | services/feature-engine/store.py:108-115 | The kept rows do not depend on the order of insertion |
| Refinement.HistoryRefines | services/feature-engine/store.py:121-123 | The account window is the scan's history, or a part of it exactly when that exceeds the limit |
| Refinement.SidesOfPayment | services/feature-engine/store.py:124-131 | A payment of the last hour is listed by exactly one of the two windows, as often as it is stored; what both list is exactly the transfers of the account to itself in that hour, each as often as it is stored, and none of them is a payment to the features |
| Refinement.NetworkRefines | services/feature-engine/store.py:124-131 | Incoming and outgoing transfers seen through the two windows are contained in those of the whole table; incoming ones are all seen while the target window fits, outgoing ones while the source window fits |
| Refinement.CustomerRefines | services/feature-engine/store.py:132-138 | Handing over only the one account and customer that apply gives the customer features of the full maps |
| Refinement.IndexedRefinesScan | services/feature-engine/store.py:117-155 | For every valid store and every candidate not stored, with neither truncation flag set, the indexed computation gives every feature the value of the global-scan reference |
| Refinement.TruncationNeverOverstates | services/feature-engine/features.py:94-116 | Whatever was cut off, counts, currency totals, velocity and structuring scores, sample count and readiness of the baseline, fan-in, fan-out and reciprocal flow never exceed their full-scan values, features that need no window equal them, and each truncation flag is set exactly when a window it stands for holds more than its limit |
| Truncation.RecentHistory | services/feature-engine/store.py:117-123 | Of every recent part of the account history the index returns all the limit has room for |
| Truncation.RecentWindowsAreExact | services/feature-engine/features.py:200-295 | Both window counts are the full-scan ones cut at the limit, and determine the acceleration; every velocity, structuring and baseline feature is exact while its own window fits; with only the long window cut, acceleration is never understated |
| Truncation.DirectionsAreExact | services/feature-engine/features.py:318-356 | Fan-in, pass-through and reciprocal flow are exact while the transfers to the account fit the limit, fan-out while those from it do |
| Identifiers.LabelIsIdentifier | services/feature-engine/evidence.py:20-22 | The identifiers used in failing inputs, a letter and a number written in digits, are accepted for every number up to 10^18 |
| Identifiers.LabelsDiffer | services/feature-engine/evidence.py:20-22 | Different numbers name different transactions |
| Acceptance.ReachableIsValid | services/feature-engine/store.py:88-245 | Every store that any history of entities, submissions and publications leads to from the empty one has distinct identifiers and rows that match their evidence |
| Acceptance.ReachableIsAccepted | services/feature-engine/evidence.py:20-46 | Such a store holds accepted evidence only: identifiers, codes, dates, amounts and the conversion pair as the model contract demands |
| Acceptance.StoredPayloads | services/feature-engine/store.py:157-245 | Whatever transactions with distinct identifiers an empty store is fed, each published before the next, it ends up holding exactly them, in order, with an empty outbox |
| Overstatement.AveragesNeedTheirWindow | services/feature-engine/features.py:214-244 | The long average, the short average and the deviation are never overstated, over all stores that can come about from accepted evidence and all candidates that can be received, where the window holds n transactions, if and only if n is within the limit; every n up to 10^18 beyond it has a store that a run fills |
| Overstatement.AccelerationByCounts | services/feature-engine/features.py:229-243 | The acceleration under truncation and on the full scan, told by how many transactions the two windows hold |
| Overstatement.AccelerationNeedsTheLongWindow | services/feature-engine/features.py:229-243 | Acceleration is never overstated, over all stores that can come about from accepted evidence and all candidates that can be received, where the long window holds n transactions, if and only if n is within the limit, both windows are one, or the short one is longer than the calendar of accepted timestamps |
| BaselineOverstatement.BaselineNeedsTheLongWindow | services/feature-engine/features.py:274-295 | The robust z and the anomaly score are never overstated, over all stores that can come about from accepted evidence and all candidates that can be received, where the long window holds n transactions, if and only if n is within the limit or the limit is below the minimum history; for logarithms as far apart as the true ones at three amounts |
| NetworkOverstatement.PassThroughNeedsTheIncomingWindow | services/feature-engine/features.py:331-344 | Pass-through is never overstated, over all stores that can come about from accepted evidence and all candidates that can be received, with n transfers to the account within the hour, if and only if n is within the limit or the limit is below the three senders it takes |
| OrderIndependence.RunRows | services/feature-engine/store.py:157-219 | A run of admissible submissions and publications appends exactly one row per submission and keeps entities and earlier rows |
| OrderIndependence.StoredEqualsFinal | services/feature-engine/store.py:117-155 | Every snapshot stored by a run in event-time order equals, but for `late_event` and the wall clock, the one computed against the final table |
| OrderIndependence.SameEvidenceSameWindows | services/feature-engine/store.py:108-115 | Tables with the same evidence answer every window alike |
| OrderIndependence.OrderIndependence | services/feature-engine/store.py:108-187 | Two runs persisting the same transactions, each in an order of non-decreasing event time, store for each the same snapshot in all but `late_event` and the wall clock, even where windows are truncated |
| LateEvents.UnflaggedIsFinal | docs/HYBRID_MONITORING.md:36 | For submissions in any order of event times, as long as no later row of the same account is flagged `late_event`, velocity, structuring, baseline, fan-out and the history flag of a stored snapshot equal those computed against the final table, and the whole snapshot does if no later row pays the account within the hour before |
| LateEvents.DelayElsewhere | services/feature-engine/store.py:143-147 | A delay on another account cannot be told: for every configuration an empty store takes accepted evidence in an order that leaves no flag on any row, and yet the fan-in and reciprocal flow of the first are 0 as stored and 1 against the final table |
| LateEvents.FlagsAreExact | services/feature-engine/store.py:143-147 | From any store, over any history of entities, submissions in any order, replays, conflicts, refusals and publications, a row stored in it is flagged `late_event` exactly if an earlier row of its account, initial ones included, has an event time at or after its own |
| LateEvents.UnflaggedIsInOrder | services/feature-engine/store.py:143-147 | In every store that can come about, an account has no flagged row exactly if its transactions arrived in strictly increasing event time |
| Delivery.EventConsumer.ProcessMessage | services/feature-engine/events.py:127-144 | Acknowledges, dead-letters or requeues as decided on the tables before, and leaves the tables of that decision; `Settlement.MessageIsSettled` says when each happens |
| Delivery.OutboxDispatcher.FlushOutbox | services/feature-engine/main.py:70-79 | A pass deletes exactly the rows confirmed and deleted before the first mishap, in order, and the one it stopped at if its deletion committed though reported as failed; the broker has got the deleted ones and possibly the one it stopped at; it reports the batch size exactly when nothing went wrong |
| Delivery.OutboxDispatcher.DispatchRow | services/feature-engine/main.py:76-78 | A row leaves the outbox exactly when its publication was confirmed and its deletion committed; the pass goes on only if no failure was reported |
| Delivery.FlushFollowsProtocol | services/feature-engine/main.py:70-79 | What a pass of the dispatcher does is what the protocol's publish and delete steps do |
| Delivery.HandleIsJustified | services/feature-engine/events.py:127-144 | A disposition is justified by the tables after the handler's commit: acknowledged means stored, dead-lettered means invalid or in conflict |
| Delivery.OnlyNewEvidenceIsWritten | services/feature-engine/store.py:157-187 | A preview or persist is refused as a conflict exactly when other evidence is stored under the identifier, as busy exactly when it would persist new evidence into a full outbox, and answers with the stored snapshot when its own evidence is stored; it writes exactly when it persists new evidence with room in the outbox |
| Delivery.NextKeepsInv | services/feature-engine/main.py:70-93 | Every step of consumer, dispatcher, preview or crash keeps the invariant of tables, histories, inbox and batch |
| Delivery.RunGrows | services/feature-engine/store.py:157-245 | Stored rows, committed events and delivery history only grow over any run |
| Delivery.DeliveryFollowsCommitOrder | services/feature-engine/main.py:70-93 | Over every interleaving with one dispatcher, the events delivered at least once are the first k committed ones, k being the number of deleted ones or one more, and every redelivery carries the identical envelope |
| Delivery.AcknowledgedMeansStored | services/feature-engine/events.py:125-144 | A transaction message is acknowledged only once a snapshot of its evidence is committed and dead-lettered only if invalid or in conflict; a body that is no object is never settled in either way; committed events are the deleted ones, all delivered, followed by the pending ones, at most `max_outbox`; each belongs to the row committed with it; nothing stored ever changes |
| Settlement.MessageIsSettled | services/feature-engine/events.py:127-144 | Over any interleaving of other steps, a message that is received, handled and settled is acknowledged exactly if the store could be reached and its own evidence or entity is then stored, or it is of another kind; dead-lettered exactly if it is unreadable, invalid or in conflict; and handed back exactly if the store could not be reached, the evidence is new and the outbox full, or the body is no object |
| Settlement.HandlingWrites | services/feature-engine/store.py:88-102 | Handling writes new evidence together with its event, which carries the given identifier, clock and batch, or the one received entity, or nothing at all |
| Settlement.OutboxDrains | services/feature-engine/main.py:70-93 | With no mishap and no new submissions one pass per hundred pending events empties the outbox, and the broker has received each of them once, in order |
| Settlement.RedeliveryAfterCrash | services/feature-engine/events.py:127-144 | A crash forgets what is in memory and nothing else; evidence stored before it is acknowledged, and written no second time, when its message is delivered again |
| Scorer.NormalizeFeatures | services/risk-scorer/scorer.py:120-137 | Succeeds exactly when every value is a finite number, with every value divided by its scale and clipped to [0, 1] |
| Scorer.ApplyPolicyOverlays | services/risk-scorer/scorer.py:139-168 | Answers the least score that is at least the given one and honours the guarantee of every triggered rule, with exactly the triggered rules |
| Scorer.AssessQuality | services/risk-scorer/scorer.py:79-101 | Coverage of the ten quality features cut by each penalty, exactly the applicable warnings, and whether evidence is incomplete |
| Scorer.ScoreTransaction | services/risk-scorer/scorer.py:59-118 | Answers exactly for an identifier of 1 to 128 characters, finite values and at least one weighted feature, and otherwise names the first of these that fails; score, category, quality, contributions, rules and review recommendation are those specified |
| Scorer.Quality | services/risk-scorer/scorer.py:79-88 | Evidence quality is in [0, 1], and 1 exactly when all ten quality features are supplied and no penalty applies |
| Scorer.PenaltiesMultiply | services/risk-scorer/scorer.py:79-88 | Missing due diligence leaves three quarters of the quality there would be without it, each truncated window half, and without a penalty quality is the share of the ten features supplied |
| Scorer.RatioBounds | services/risk-scorer/scorer.py:72-74 | The weighted ratio lies in [0, 1] |
| Scorer.RatioIsMean | services/risk-scorer/scorer.py:72-74 | Where all scored features stand alike, the ratio stands there too |
| Scorer.ScoreMonotone | services/risk-scorer/scorer.py:59-77 | For a fixed set of scored features, raising any of them through clipping, weighting, squashing, overlays and rounding never lowers the score |
| Scorer.ScoreIgnoresTheRest | services/risk-scorer/scorer.py:67-77 | The scored features alone determine the score: evidence-quality flags and unknown features cannot move it |
| Scorer.KeyOrderIsIrrelevant | services/risk-scorer/scorer.py:120-137 | Listing the features in another order decides neither whether they are scored nor any part of the answer |
| Scorer.AssessmentIsUnique | services/risk-scorer/scorer.py:59-118 | The supplied values determine the whole answer: score, category, quality, recommendation, contributions and rules |
| Scorer.EscalationIsDocumented | services/risk-scorer/scorer.py:76-77 | The score is in [0, 1], never below what a triggered rule guarantees, and above the rounded squashed ratio only by being exactly the guarantee of a triggered rule |
| Scorer.ScoreIsRatioOrEscalation | services/risk-scorer/scorer.py:76-77 | The score is the rounded squashed ratio or the highest of the six escalations there are grounds for, each with its grounds and amount stated, whichever is more |
| Scorer.CriticalMeansSanctionsMatch | services/risk-scorer/scorer.py:170-177 | At the default thresholds a transaction is critical exactly when `sanctions_match` is supplied and at least 0.8 |
| Scorer.CategoryIsByThreshold | services/risk-scorer/scorer.py:170-177 | A score is at least as severe as a threshold exactly if it reaches it |
| Scorer.SeverityMonotone | services/risk-scorer/scorer.py:59-118 | Raising scored features never makes an assessment less severe, and everything above low severity is recommended for review |
| Scorer.ExtraFeatureDilutes | services/risk-scorer/scorer.py:72-74 | Supplying one more scored feature lowers the ratio exactly when its normalised value is below the ratio, so monotonicity holds for a fixed set of features only |
| Scorer.OneFeatureMovesRatio | services/risk-scorer/scorer.py:67-74 | Changing one scored feature moves the ratio by its weight times the change of its normalised value over the available weight, wherever the other features stand |
| Scorer.WeightsRank | services/risk-scorer/scorer.py:10-31 | Which evidence outweighs which, and by how much |
| Scorer.RoundsToNearest | services/risk-scorer/scorer.py:76-77 | Rounding gives the nearest sixth decimal, the even one of two as near |
| Canonical.NormalizeKeepsValue | services/feature-engine/evidence.py:53 | Stripping trailing zeros keeps the number |
| Canonical.NormalFormIsUnique | services/feature-engine/evidence.py:53 | Two normal forms are the same number exactly when they are the same pair |
| Canonical.ReadPlain | services/feature-engine/evidence.py:53 | Fixed-point text reads back as the same number |
| Canonical.CanonDecidesValue | services/feature-engine/evidence.py:50-53 | Two amounts print the same canonical text exactly when they are numerically equal |
| Canonical.CanonIsStable | services/feature-engine/evidence.py:50-53 | Canonicalising the parsed canonical text changes nothing |
| Canonical.AcceptedByValue | services/feature-engine/evidence.py:23 | Whether an amount is accepted depends on its value only, so a canonical text of an accepted amount is accepted |
| Canonical.AcceptedRange | services/feature-engine/evidence.py:23 | The limits of twenty digits and four decimal places, which leave sixteen before the point, accept exactly the positive multiples of a ten-thousandth below 10^16 |
| Canonical.TenThousandthsAreExact | services/feature-engine/evidence.py:23 | Counting accepted amounts in ten-thousandths, as the feature model does, identifies exactly the amounts with equal canonical text |
| Canonical.ValidationIsExact | services/feature-engine/evidence.py:26-46 | A record is accepted exactly if its amount is usable, base amount and base currency come together, and a base amount is usable and, in the same currency, the same number of ten-thousandths; what is accepted is what the record says |
| Canonical.DumpedIsAccepted | services/feature-engine/evidence.py:48-49 | Valid evidence passes validation as it was given |
| Canonical.Canonicalize | services/feature-engine/evidence.py:48-54 | The loop over the two amount keys rewrites exactly the amounts present into canonical text |
| Canonical.CanonicalDecidesEvidence | services/feature-engine/evidence.py:48-54 | Two canonical records are equal exactly when the evidence is equal up to the way amounts are written |
| Canonical.ConversionByValue | services/feature-engine/evidence.py:40-46 | The conversion-pair rule depends on values only |
| Canonical.PathsAgree | services/feature-engine/main.py:198-201 | Valid evidence read back from its canonical record passes validation and canonicalises to the same record, so the HTTP path, which canonicalises twice, and the event path, which does so once, agree on the fingerprint |
| EndToEnd.SuppliedNames | services/risk-scorer/scorer.py:29-31 | Of the weighted features the modelled dictionary leaves out exactly `sanctions_match`, which is reserved for an independent screening integration |
| EndToEnd.ScoreIsOrderIndependent | services/risk-scorer/main.py:120-133 | Whichever event-time order the same transactions arrive in, each is given the same risk score and category |
| EndToEnd.NeverCriticalAlone | services/risk-scorer/scorer.py:170-177 | Without an independent screening match no stored snapshot is scored critical at the default thresholds |
| EndToEnd.ComputedInScale | services/feature-engine/features.py:118-139 | Every score the engine computes is in [0, 1], every flag 0 or 1, the deviation in [0, 5] and the hour at most 23 |
| EndToEnd.ClipsOnlyTheCount | services/risk-scorer/scorer.py:130-136 | On computed features the scorer clips nothing but a near-threshold count above four, whose normalised value is the structuring score |
| EndToEnd.RulesHaveGrounds | services/risk-scorer/scorer.py:139-168 | Which stored evidence makes which policy rule fire: three near-threshold amounts, a listed country, an exposed person with basic diligence only, a robust deviation of seven with a sufficient sample, nine recipients, the two flow motifs; the screening rule never |
| EndToEnd.FullDeviation | services/risk-scorer/scorer.py:130-136 | The amount deviation counts in full exactly from five averages on |
| EndToEnd.IncompleteEvidenceIsReviewed | services/alert-manager/alerts.py:326-384 | Once a scored snapshot is delivered and its worker has taken its next step, an alert is stored for it exactly if there was one, a window was cut off, a later event had been seen, the customer is unknown, or the score reaches the lower of the two alert thresholds; incomplete evidence has its alert whatever others do in between |
| EndToEnd.CriticalAlertsNameTheMatch | services/alert-manager/alerts.py:348-352 | Scored at the default thresholds, the alert created is typed a sanctions screening match exactly when the transaction is critical and the alert threshold of the manager is at most 0.98, as the default 0.7 is; above it a critical transaction is typed a data-quality review |
| EndToEnd.AlertTypeNamesConcern | services/alert-manager/alerts.py:387-403 | The type of an alert names the first concern its rules and velocity give grounds for, and no other |

## Left out

- HTTP routing and status codes, the broker and its queues, SQLite itself, and the model provider: only publish, confirm, commit, acknowledge and call outcomes remain.
- `ResourceGuard` and the gateway's token and role checks: single-branch checks around the limiter.
- Graph centrality and communities, which come from a library outside the repository.
- Ingestion batch checks and the parsing of fields (timestamps with offsets): evidence arrives typed, and evidence that fails validation is a single case. The patterns of identifiers and codes are stated in `Acceptance`.
- Narrative wording, draft header, model input, prompt and output contract: a template is a constructor over the alert's facts, accepted model text is an uninterpreted string.
- Environment parsing and secrets; the policy bounds are the `Valid` predicate of `Budget.Policy`, and the threshold order that of `Scorer.Thresholds`.
- The listing, counting, pagination and audit-reading queries of alerts and features, logging, metadata and health.
- Timestamps of audit entries; `updated_at` is the clock reading passed to a step.
- The delays of `publish_outbox_forever` and of requeued messages: time between passes is unconstrained.
- Several dispatchers at once, and policies or thresholds that change during a run.
- Rows written by older schema versions, whose revision defaults to 1.
- Float rounding, overflow and non-finite intermediate results in features; the scorer's rejection of non-finite and non-numeric input is modelled.
- The order in which contributions and rules are presented: contributions are a map and rules a set.
- Decimal text in exponent notation on input: a validated amount is a coefficient and an exponent of any size, and reading text is needed only for canonical text, which never uses one.
- Alerts.AlertRepository.UpdateAlert: a status or verdict outside the typed update (for example setting a draft back to pending) cannot be expressed, because the typed update allows only approved and rejected.
- Budget.HalfOpenBound: stated for runs in which every finish is a failure and comes before its lease expires, because a success rightly closes the breaker and an expired lease rightly frees its slot.
- Scorer.ScoreTransaction: the passed-through transaction, version strings and wall-clock time of the answer are not part of the model.
- EndToEnd.ScoreIsOrderIndependent: the dictionary handed to the scorer is modelled on the names the scorer reads; the other features travel along and are ignored by it.
- Overstatement.AveragesNeedTheirWindow, and the three theorems like it: stated for windows of up to 10^18 transactions. Some bound is forced, as only finitely many identifiers of 128 characters exist and a table holds fewer than 2^63 rows.
- LateEvents.UnflaggedIsFinal: entities stay as they are during the run; a changed customer or account changes what is computed later, as the documentation says.
