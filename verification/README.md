# Verified model of the trade risk engine

A Dafny model of the engine's decision logic: the pure gates, the stateful desk gates, the
authority that runs them in order, the provider's audit report and receipts, Kelly sizing, and
the benchmark's percentiles. `dafny verify dfyconfig.toml` checks everything.

How the model is laid out:

- `Prelude.dfy`: results, IEEE special values over exact reals (`Floats`), datetimes in
  microseconds with a timezone mode (`Clock`), and small facts about products and counting.
- `State.dfy`: the value structs with their validity conditions and the decision object.
- `StatelessGates.dfy`, `LossScan.dfy`: the pure gates as methods that write into a decision,
  each proved against a verdict. The consecutive-loss verdict is stated without sorting or
  scanning: it counts the losses that come after every non-loss and lie in the window.
- `LossScanLaws.dfy`: what reordering, deleting and adding outcomes does to that verdict.
- `GateMachines.dfy`, `StatefulGates.dfy`, `GateRuns.dfy`: the steps of the stateful gates on
  their snapshots, the gate classes proved against those steps, and laws over whole runs.
- `Engine.dfy`, `EngineRuns.dfy`: the gate chain, `RiskAuthority`, and laws over runs of trips,
  resets, records and evaluations, across crash and recovery.
- `Figures.dfy`: the gates, the chain and one whole evaluation described a second time,
  on the figures themselves, and proved to be what the verdict functions give.
- `PolicyLaws.dfy`: loosening a policy, and how far exposure can grow over a session.
- `Receipts.dfy`, `Provider.dfy`: the search for secret-bearing keys, requests, the audit
  report, and what advice can influence.
- `Kelly.dfy`, `Percentile.dfy`: stake sizing and nearest-rank percentiles.

Modelling choices. A snapshot struct is the abstract value of its gate, so each class method says
which step of the snapshot it performs. Floats are finite reals, NaN or an infinity; comparisons
and sums follow IEEE on the special values. Subtracting datetimes requires one timezone mode, so
verification shows that no evaluation compares mixed modes. Python exceptions raised by the
modelled code are `Failure` results. The elapsed time that the latency gate reads is an argument.
Reason codes are structured values; a kill switch may carry any reason, including one equal to
another gate's.

Where the code and its documentation differ, the model follows the code:

- `on_trip` is documented to fire once per unique reason. It collapses only immediate repeats: a
  reason comes back after another one fires again (`EngineRuns.ReasonCanFireTwice`), and the
  promise holds exactly when no reason returns (`EngineRuns.FiresOncePerReasonIff`). Approvals
  and resets do not clear the memory: a later trip with the same reason fires nothing unless another
  reason was rejected in between (`EngineRuns.RejectionFiresIff`).
- Kelly sizing is documented to raise for any finite argument out of range. A win probability that
  is NaN or infinite returns 0 before the price is looked at (`Kelly.RaisesAsDocumentedIff`). It is
  also documented to return 0 for any NaN or infinite input; a bad fraction, or a finite win
  probability out of range, raises first (`Kelly.NonFiniteGivesZeroIff`).
- The stateful gates are documented to count every loss and to ignore NaN and infinite PnL. They
  also ignore an `int`, because only a `float` passes their finite test
  (`GateRuns.IntegerLossIsIgnored`). That matters exactly when an untripped breaker would have
  counted it or ended a streak (`GateRuns.IntegerPnlBreakerIff`), and when the loss gate's window is
  not already full of its flag (`GateRuns.IntegerPnlLossGateIff`).
- A cluster cap of zero or less is documented to reject always. An unknown cluster and a cost of
  zero or less are approved before the cap is read, and those are the only exceptions
  (`StatelessGates.NonPositiveCapRejectsIff`).

Laws one might expect without a condition, and the condition each needs:

- The order of the outcome list does not matter when equal timestamps agree on being losses. With
  ties it matters exactly when the list is scanned and the losses that trail strictly and those that
  trail with ties lead to different verdicts (`LossScanLaws.OrderFreeIff`, `TiesMatter`).
- More equity keeps an approval exactly when the drawdown limit is not negative
  (`PolicyLaws.ChainEquityIff`, `MoreEquityCanReject`).
- The exposure cap holds over sessions of costs that are not negative. A negative cost makes room
  that resolving the position takes away again (`PolicyLaws.NegativeCostBreaksCap`); an approval
  keeps its family within the cap whatever is resolved later exactly when the family's positive
  costs, the new one included, fit the cap (`PolicyLaws.ApprovalSafeIff`).
- An approval by the cluster cap means that the exposure fits the cap only when both are numbers.
  NaN compares with nothing: a NaN cap, or a NaN amount already open under a positive cap, lets
  every finite cost through (`Figures.ClusterApprovesIff`).

## Model

| member | source | states |
|---|---|---|
| StatelessGates.EvaluateExpectedValue | src/trade_risk_engine/gates.py:96-119 | writes the EV verdict into the decision: pass at or above the floor, a non-finite figure rejected first |
| StatelessGates.EvaluateDrawdown | src/trade_risk_engine/gates.py:27-56 | passes iff the day's PnL plus the limit's share of positive equity is not negative, decided by the code through a quotient |
| StatelessGates.EvaluateConcentration | src/trade_risk_engine/gates.py:59-93 | the accumulator loop equals the family's unresolved exposure; passes iff it and the cost fit the cap, with a non-finite matching cost rejected |
| StatelessGates.EvaluateClusterCap | src/trade_risk_engine/gates.py:207-244 | rejects with size 0 iff the cap applies and is breached, on all special float values, and raises for a size it cannot return |
| LossScan.ScanBackwards | src/trade_risk_engine/gates.py:160-188 | the sorted reverse scan with its early exits equals the sort-free verdict: future loss of the trailing run, else at least `limit` trailing losses in the window |
| LossScan.EvaluateConsecutiveLosses | src/trade_risk_engine/gates.py:122-188 | all guards in their order and the scan, for every list and clock; only datetimes of one mode are ever compared |
| LossScan.FutureLossIsNewest | src/trade_risk_engine/gates.py:166-173 | the time-order rejection can come only from the newest outcome in stable order |
| LossScan.StableOrderChronological | src/trade_risk_engine/gates.py:160-161 | the sort lists every outcome once, oldest first, equal timestamps in list order |
| Figures.LossWindow | src/trade_risk_engine/gates.py:153-188 | on the figures: a negative PnL after every other one and ahead of the clock is a time-order error; otherwise it rejects iff at least `limit` of them are at most `minutes` times sixty million microseconds old, the clock being the given time or the latest outcome's |
| Figures.LossGuards | src/trade_risk_engine/gates.py:131-158 | on any list and clock, which guard answers before the scan, in order |
| LossScanLaws.PermutationInvariance | src/trade_risk_engine/gates.py:142-188 | reordering any list, valid or not, leaves the verdict alone when equal timestamps agree on being losses |
| LossScanLaws.OrderFreeIff | src/trade_risk_engine/gates.py:142-188 | every order of a list gets one verdict iff it is not scanned, or a strictly trailing loss is in the future, or no tied one is and the strict count reaches the limit or the tied count misses it |
| LossScanLaws.TiesMatter | src/trade_risk_engine/gates.py:160-186 | a concrete tie: two orders of one win and one loss are decided differently |
| LossScanLaws.StaleOutcomesAreIrrelevant | src/trade_risk_engine/gates.py:174-183 | deleting any set of outcomes older than the window changes nothing, with a given or a derived current time |
| LossScanLaws.OlderOutcomesNeverApprove | src/trade_risk_engine/gates.py:153-188 | putting outcomes not newer than any in front, of whatever mode or value, never turns a rejection into an approval |
| StatelessGates.NonPositiveCapRejectsIff | src/trade_risk_engine/gates.py:214-219 | a cap of zero or less rejects iff the cluster is known and the cost is not zero or less, with inputs it approves |
| StatefulGates.KillSwitch.Trip | src/trade_risk_engine/gates.py:271-275 | a second trip keeps the first trip's time |
| StatefulGates.KillSwitch.FromState | src/trade_risk_engine/gates.py:293-298 | a fresh switch with exactly the snapshot's state |
| StatefulGates.TimedCircuitBreaker.Record | src/trade_risk_engine/gates.py:348-369 | performs the breaker's record step and stays valid; a trip comes only from a finite loss that completes the streak and is stamped with its time |
| StatefulGates.TimedCircuitBreaker.Check | src/trade_risk_engine/gates.py:371-396 | clears exactly on an expired same-mode clock and writes the verdict of the state before the check |
| StatefulGates.TimedCircuitBreaker.FromState | src/trade_risk_engine/gates.py:413-422 | a fresh breaker with exactly the snapshot's state |
| StatefulGates.ConsecutiveLossGate.Record | src/trade_risk_engine/gates.py:458-465 | appends the loss flag of a finite PnL and trims to the window |
| StatefulGates.ConsecutiveLossGate.Check | src/trade_risk_engine/gates.py:467-481 | passes iff the window is not full or holds at most the allowed losses |
| StatefulGates.ConsecutiveLossGate.FromState | src/trade_risk_engine/gates.py:494-498 | a fresh gate with exactly the snapshot's state |
| GateRuns.RunStaysSound | src/trade_risk_engine/gates.py:348-402 | over every run of a fresh breaker the streak never exceeds the threshold, equals it iff tripped, and an untripped breaker has no trip time |
| GateRuns.StreakIsTrailingRun | src/trade_risk_engine/gates.py:348-402 | while untripped the streak is the trailing run of losses among the finite PnLs since the last clear or reset |
| GateRuns.TripsCostLosses | src/trade_risk_engine/gates.py:348-402 | threshold times the number of trips, plus the running streak, never exceeds the losses recorded |
| GateRuns.RecordOnFigures | src/trade_risk_engine/gates.py:348-369 | one record on a breaker in any state, on the PnL's value: ignored, streak cleared, streak raised, or tripped with the record's time |
| GateRuns.CheckOnFigures | src/trade_risk_engine/gates.py:371-396 | one check in any state: refused across timezone modes, cleared iff the elapsed microseconds reach the rounded hours, else refused with streak and cooldown |
| GateRuns.TripIsStamped | src/trade_risk_engine/gates.py:348-402 | over every run of a fresh breaker the streak counts exactly the losses recorded since it last ended; it trips iff they reach the threshold, with the time of the loss that completed them |
| GateRuns.CooldownExact | src/trade_risk_engine/gates.py:357-396 | after that loss at time t, whatever follows short of a reset or an approval, a check approves and clears iff its clock has t's mode and shows the whole cooldown |
| GateRuns.LockedUntilUnlocked | src/trade_risk_engine/gates.py:357-396 | until a reset or an expired check a tripped breaker does not change and every check rejects |
| GateRuns.ClearedOnlyByUnlocking | src/trade_risk_engine/gates.py:357-402 | a run clears a tripped breaker iff it holds a reset or an expired check, so without a trip time only a reset does |
| GateRuns.UnlockClears | src/trade_risk_engine/gates.py:377-402 | the first such step empties the streak and, if a check, approves |
| GateRuns.CooldownSafety | src/trade_risk_engine/gates.py:371-396 | without a reset the first approval after a trip is on the same kind of clock and at least the cooldown later |
| GateRuns.WindowRefinesHistory | src/trade_risk_engine/gates.py:458-465 | the trimmed history is the last `window_trades` entries of the unbounded history, from any state |
| GateRuns.RejectsOnHistory | src/trade_risk_engine/gates.py:458-481 | a fresh gate rejects iff enough finite PnLs came and the last `window_trades` of them hold too many losses |
| GateRuns.LossGateOnFigures | src/trade_risk_engine/gates.py:458-481 | the same on the PnLs: it rejects iff more than `max_losses` of the last `window_trades` finite floats are below zero, other values taking no place |
| GateRuns.RecoveryBound | src/trade_risk_engine/gates.py:458-481 | from any valid state `window_trades - max_losses` finite non-losses in a row make it approve |
| GateRuns.RecoveryBoundIsTight | src/trade_risk_engine/gates.py:458-481 | from a window full of losses it approves iff at least that many came |
| GateRuns.IntegerPnlBreakerIff | src/trade_risk_engine/gates.py:348-369 | the breaker steps as documented iff the PnL is no integer, or the breaker is tripped, or it is a non-loss at streak zero |
| GateRuns.IntegerPnlLossGateIff | src/trade_risk_engine/gates.py:458-465 | the loss gate steps as documented iff the PnL is no integer, or the full window already holds nothing but its flag |
| GateRuns.IntegerLossIsIgnored | src/trade_risk_engine/gates.py:501-503 | an integer loss leaves untouched a breaker it should trip and a window it should fill |
| Engine.EvaluateStateless | src/trade_risk_engine/engine.py:225-321 | the short-circuiting chain returns the first rejection of the four gates, then the cluster cap's, then the latency one, or raises |
| Figures.ChainOnFigures | src/trade_risk_engine/engine.py:225-321 | the chain's decision on any figures under a valid policy: every branch in order with its inclusive limit and its reason, the cluster's reason included |
| Figures.ClusterApprovesIff | src/trade_risk_engine/gates.py:207-244 | on any figures, NaN and infinities included, exactly when the cluster cap approves; it raises only for a cost that is not finite |
| Figures.DeskOnFigures | src/trade_risk_engine/engine.py:110-159 | one evaluation in full on the figures: what each desk gate answers, when the breaker clears, and when the chain is asked |
| Engine.RiskAuthority.CheckStatefulGates | src/trade_risk_engine/engine.py:131-146 | kill switch, breaker and loss gate in order; a tripped kill switch keeps the breaker unchecked |
| Engine.RiskAuthority.EvaluateWithState | src/trade_risk_engine/engine.py:110-159 | new state, decision or exception, and callback calls are those of the evaluation step |
| Engine.RiskAuthority.RecordResolvedTrade | src/trade_risk_engine/engine.py:161-171 | feeds the breaker and the loss gate, leaving the kill switch and the last reported reason alone |
| Engine.RiskAuthority.MaybeFireTrip | src/trade_risk_engine/engine.py:214-222 | calls back and remembers the reason iff a callback is set and the reason differs from the last one fired |
| Engine.RiskAuthority.SnapshotState | src/trade_risk_engine/engine.py:173-187 | the snapshot of a valid authority passes its own validation and holds its gates' states |
| Engine.RiskAuthority.FromState | src/trade_risk_engine/engine.py:189-212 | the rebuilt authority has the snapshot's gates, each a fresh object, and no last reported reason |
| EngineRuns.ApprovedIffAllPass | src/trade_risk_engine/engine.py:110-159 | approval iff every stateful gate, every pure gate, the cap and the latency budget pass; rejections name the first failure in order and every decision keeps the proposed cost as size |
| EngineRuns.KillSwitchShields | src/trade_risk_engine/engine.py:131-133 | under a tripped kill switch nothing is approved and no gate changes |
| EngineRuns.EvaluateIdempotent | src/trade_risk_engine/engine.py:110-159 | an immediate repeat decides the same, changes nothing and fires nothing, despite the breaker's auto-clear |
| EngineRuns.SameGatesSameDecisions | src/trade_risk_engine/engine.py:110-171 | authorities with equal gates return equal decisions over every run, whatever they last reported |
| EngineRuns.CrashRecovery | src/trade_risk_engine/engine.py:173-212 | after any run the snapshot is valid, and the authority rebuilt from it gives the same decisions and gates over every further run |
| EngineRuns.CallTrace | src/trade_risk_engine/engine.py:131-146 | over any run the calls are the stateful rejections with immediate repeats collapsed; approvals and stateless rejections play no part |
| EngineRuns.CallsAfterRecovery | src/trade_risk_engine/engine.py:189-222 | a rebuilt authority's calls are the original's, with one extra in front iff the next rejection repeats the last report |
| EngineRuns.RejectionFiresIff | src/trade_risk_engine/engine.py:214-222 | after any run of a fresh authority a stateful rejection fires iff the one before it, if any, had another reason |
| EngineRuns.OncePerReasonIff | src/trade_risk_engine/engine.py:214-222 | collapsing leaves each reason once iff no reason returns after a different one |
| EngineRuns.FiresOncePerReasonIff | src/trade_risk_engine/engine.py:68 | the documented one call per unique reason holds on a run iff no reason returns |
| EngineRuns.ReasonCanFireTwice | src/trade_risk_engine/engine.py:214-222 | a concrete run in which one reason fires twice |
| EngineRuns.BreakerInsideAuthority | src/trade_risk_engine/engine.py:110-171 | over any run the authority's breaker is in the state of its own run of records, checks and resets, checks reaching it only past the kill switch |
| EngineRuns.LossGateInsideAuthority | src/trade_risk_engine/engine.py:161-171 | over any run a fresh loss gate is in the state of being fed exactly the PnLs recorded since its last reset |
| EngineRuns.HaltedDuringCooldown | src/trade_risk_engine/engine.py:131-146 | while the breaker's cooldown runs and nobody resets it, no evaluation of any run is approved |
| EngineRuns.NoApprovalInCooldown | src/trade_risk_engine/engine.py:131-171 | over every run from a fresh breaker, an approval after a full losing streak that nothing ended comes on the same kind of clock and at least the cooldown after the record that completed it |
| EngineRuns.KillSwitchInsideAuthority | src/trade_risk_engine/gates.py:271-280 | over every run the switch is tripped iff a trip came since the last reset, and holds the time of the first such trip |
| EngineRuns.HaltedUntilReset | src/trade_risk_engine/gates.py:248-288 | once the kill switch is tripped no evaluation of any run is approved before a reset, and the first trip is kept |
| PolicyLaws.ChainMonotone | src/trade_risk_engine/engine.py:225-321 | an approval survives any joint loosening of the policy, the figures, the exposure, the cap and the time |
| PolicyLaws.MoreEquityCanReject | src/trade_risk_engine/gates.py:51-55 | a concrete limit of -0.1 under which doubling the equity rejects |
| PolicyLaws.EquityMonotoneIff | src/trade_risk_engine/gates.py:51-55 | a day that passed passes at every higher equity iff the drawdown limit is not negative |
| PolicyLaws.ChainEquityIff | src/trade_risk_engine/engine.py:252-321 | an approved trade stays approved at every higher equity iff the drawdown limit is not negative |
| PolicyLaws.ExposureSafety | src/trade_risk_engine/gates.py:79-93 | over any session of approvals at nonnegative cost and resolutions, no family exceeds the larger of the cap and its start |
| PolicyLaws.ApprovalSafeIff | src/trade_risk_engine/gates.py:79-93 | after an approval every further sequence of resolutions keeps its family within the cap iff the family's positive unresolved costs, the new one included, fit the cap |
| PolicyLaws.SafeUnderResolutionIff | src/trade_risk_engine/gates.py:79-86 | every sequence of session resolutions keeps a family within a cap iff its positive unresolved costs fit it |
| PolicyLaws.GrossSafety | src/trade_risk_engine/gates.py:79-93 | with costs of any sign, a session whose approvals each leave that room never exceeds the larger of the cap and the positive costs it began with |
| PolicyLaws.NegativeCostBreaksCap | src/trade_risk_engine/gates.py:79-93 | a concrete session: an approved cost of -50, an approved 150 and a resolution leave 150 at risk under a cap of 100 |
| PolicyLaws.ClusterSafety | src/trade_risk_engine/gates.py:207-244 | a known cluster's open dollars never exceed the larger of the cap and where they began, non-positive costs and caps included |
| Provider.MakeRequest | src/trade_risk_engine/provider.py:79-148 | a request exists iff all ten checks pass, and then holds every argument under its own name: the float or the integer's value, the identifiers, each item of the sequences, and None as none |
| Provider.FirstBadField | src/trade_risk_engine/provider.py:79-148 | on the arguments: which field the exception names, in the order of the checks; a bool is no number |
| Provider.GateReport | src/trade_risk_engine/provider.py:174-205 | the report holds each pure gate's own verdict in order, an empty list of outcomes counting as none |
| Provider.RiskProvider.EvaluateRequest | src/trade_risk_engine/provider.py:224-308 | the result carries the authority's decision; the authority's new state and calls are those of the evaluation, also when the receipt is refused |
| Provider.ResultIsDecision | src/trade_risk_engine/provider.py:229-308 | a returned result is the authority's decision on the request's own figures, sized at the proposed cost, with each gate's verdict under its name, both versions and the time spent |
| Provider.ReceiptIsResult | src/trade_risk_engine/provider.py:243-298 | the receipt names the request's run, "approved" iff the result is, its reason and its report entry by entry |
| Provider.ResultAgreesWithReport | src/trade_risk_engine/provider.py:57-64 | a result is approved iff no stateful gate rejects, its four outcomes are approved and time allows; otherwise the stateful gate, the first unapproved outcome, or failing that the latency budget gives the reason |
| Provider.AdviceCannotMatter | src/trade_risk_engine/provider.py:15-18 | two requests differing only in advice leave equal states and calls and give results that differ at most in the advice entry of the receipt |
| Provider.ReceiptRefusedIff | src/trade_risk_engine/provider.py:244-298 | the receipt is refused iff the advice holds a sensitive key at some depth; its own fields never offend |
| Receipts.RejectsIffLeaks | src/trade_risk_engine/provider_receipts.py:47-61 | the recursive search rejects iff some path of keys and positions ends at a sensitive key |
| Receipts.SensitiveIff | src/trade_risk_engine/provider_receipts.py:50-56 | a key is sensitive iff it spells one of the five names letter by letter, in any case, hyphens standing for underscores |
| Receipts.RejectedIff | src/trade_risk_engine/provider_receipts.py:47-61 | level by level: a mapping is rejected for a key of its own or what a key maps to, a list for an item, nothing else |
| Receipts.ReceiptBuiltIff | src/trade_risk_engine/provider_receipts.py:30-44 | a receipt with exactly what was passed iff neither name is blank and neither mapping holds a sensitive key; otherwise the first of these gives the exception |
| Kelly.KellyOnFigures | src/trade_risk_engine/kelly.py:31-48 | on any figures: which argument raises, which gives 0, and in what order, before the closed form applies |
| Kelly.StakeIsScaledPeak | src/trade_risk_engine/kelly.py:40-48 | the stake is the positive part of (p - price)/(1 - price) times the fraction; no clamp bites |
| Kelly.StakeMonotone | src/trade_risk_engine/kelly.py:40-48 | the stake is monotone in the win probability and antitone in the price |
| Kelly.StrictMean | src/trade_risk_engine/kelly.py:40-46 | strict weighted AM-GM: values of weighted mean at most 1, not both 1, have a weighted product below 1 |
| Kelly.WealthUnimodal | src/trade_risk_engine/kelly.py:40-46 | wealth over won and lost bets rises strictly up to the peak stake and falls strictly beyond it |
| Kelly.KellyOptimal | src/trade_risk_engine/kelly.py:40-48 | at fraction 1 every other stake in [0, 1] yields strictly less wealth over bets won at the estimated rate, also when the edge is not positive |
| Kelly.FractionalKellySafe | src/trade_risk_engine/kelly.py:46-48 | for every fraction in (0, 1] a positive stake yields wealth above 1 and a zero stake exactly 1, and a larger stake from a larger fraction yields more |
| Kelly.RaisesAsDocumentedIff | src/trade_risk_engine/kelly.py:27-38 | the exceptions are the documented ones except that a non-finite probability hides a price out of range |
| Kelly.NonFiniteGivesZeroIff | src/trade_risk_engine/kelly.py:23-38 | with a NaN or infinite input the result is 0 iff the fraction is valid and the win probability is not a finite one out of range |
| Percentile.PercentileIsNearestRank | src/trade_risk_engine/benchmark.py:140-146 | for every percentile, capped at 100, the reported value is the least sample that at least that percent of the samples do not exceed |
| Percentile.ReportHoldsFigures | src/trade_risk_engine/benchmark.py:43-60 | the fields named p50, p95 and p99 are the nearest ranks at 50, 95 and 99 percent of the samples, min and max their extremes, the stored samples their ascending rearrangement, the counters as given |
| Percentile.ReportMean | src/trade_risk_engine/benchmark.py:59 | the mean times the number of samples is their total |
| Percentile.ReportOrdered | src/trade_risk_engine/benchmark.py:43-60 | a report exists iff there are samples; min, p50, p95, p99, max ascend and the mean lies between the ends |
| Percentile.ReportOrderFree | src/trade_risk_engine/benchmark.py:47-60 | the whole report depends only on the multiset of samples |

## Left out

- IEEE rounding, overflow and subnormals: arithmetic on finite floats is over exact reals, so the
  claims about sums, ratios and ranks are about reals.
- Datetimes are microsecond counts of one mode: DST folds, wall-clock arithmetic between equal
  zones and timedelta overflow are not modelled; `timedelta` rounding of the cooldown is.
- Cooldowns are finite positive reals: NaN passes the original's check and fails later.
- Type checks on constructor arguments that a typed parameter already guarantees (thresholds, window
  sizes, struct fields), and non-string mapping keys.
- Exceptions raised inside `on_trip`, and a callback that changes the decision it receives.
- Reason codes are compared as values: a custom kill-switch text that spells out another gate's
  message counts as that message only when given as that reason value.
- The texts of reason codes beyond their payload, and letter case outside ASCII in receipt keys.
- Receipt digests of inputs and configuration, and JSON encoding and decoding of snapshots.
- OpenTelemetry spans, the configuration loader, the webhook emitter and the paper adapter: no
  effect on decisions.
- Kelly.KellyOptimal: covers rational win rates, the share of won bets among finitely many.
