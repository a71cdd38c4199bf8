# Order execution engine: a verified model

A parent execution brings a position to a target by submitting child orders one at a time, by the
clock (TWAP) or by following the quote (CHASE), while the exchange fills, loses and cancels orders on
its own and the local record lags behind. This project models that engine, the exchange it talks to
and everything that can happen in between, and proves what the engine promises about it.

`dafny verify dfyconfig.toml` checks the whole project (Dafny 4.11).

## How it is built

- **Values** (`Models`, `StateMachine`, `Sorting`, `Intervals`, `Schedule`). Orders, exposure buckets,
  fills, transition tables, half-open fill intervals and the TWAP schedule. Quantities are whole
  numbers of the smallest unit, prices whole numbers, times and schedule values exact reals. A client
  order id is the sequence number the order was created with.
- **Specification** (`Records`). What every engine operation does to the record of an execution, as a
  function from record to record.
- **Venue** (`Venues`). Orders that only advance and trades that tile them. `Evolves` is everything an
  exchange may do on its own: a request in flight becomes an order or is lost, an order fills or is
  cancelled. Reports are views of some earlier moment.
- **Fill ledger** (`FillLedger`, `Idempotence`, `Prices`). Duplicate, stale and out-of-order fills become
  disjoint intervals per child, and the price inputs of the summary; what these are worth, and what the
  average price made from them is.
- **Coupling** (`Coupling`, `Evidence`, `Exactness`). The record is an earlier view of the venue, order
  by order and trade by trade; every piece of evidence keeps it one, and a complete reconciliation
  makes it the present view.
- **Protocol** (`Invariant`, `Protocol`, `Steps`, `Deliveries`, `Runs`, `Outcomes`, `Attempts`, `Submissions`,
  `Causes`, `Undoing`). The
  execution as a state machine. A run is any interleaving of engine steps, venue moves, deliveries of past
  results and the passing of time. The invariant is proved for every step, and the promises for every
  moment of every run.
- **Ledger runs** (`LedgerRuns`). The same steps with nothing taken on trust: any answers to create
  requests, cancellations and lookups, any rows that name orders of the execution, any fills. The fill
  ledger and the summary's inputs stay right at every moment of these runs too.
- **Engine** (`Adapters`, `Trackers`, `Lookups`, `Calls`, `Engine`). The exposure tracker and the record as
  classes with the fields the engine updates in place, and the engine's operations as methods with its
  loops and branches. Each method is verified against its function in `Records`; each public call is
  verified to extend the run of the execution by steps of the protocol (`Valid` says that the run so
  far ends in the present state), so the theorems about runs are theorems about the class. `RunOnce` hands
  out, as a ghost `Sight`, what it heard on its way (stream health, quote, price and outcome of the order
  check, what the repricing rule said), and its contract says what the call then must have done. The checks
  the engine makes before reservations, at a ban in the middle of a call and after operations are
  executed there and proved never to fail. `Venue` is an adapter whose answers are arbitrary except that
  they are true.
- **Simulator** (`Simulators`). The deterministic exchange with its scripts, verified to be a venue as
  described by `Venues`.
- **Slice ledger** (`SliceLedger`). The per-slice report of a TWAP summary.
- **Limits** (`Scenarios`, `Limits`). Where the engine depends on its venue: the exact condition, and a
  case, reached by a run, in which it fails.

One engine call is one atomic sequence of steps, because the actor lock serialises calls
(`src/execution/events.py:17-19`); the venue may move at every adapter call inside it. The clock
stands still during a call.

## What the code does where one might expect otherwise

- The warning that a timed-out create was not found is never withdrawn by the simulator, and a result
  that carries it rejects every unknown order it does not list. Delivered late, it rejects an order that
  went live meanwhile. `Limits.DeliveryKeepsViewIff` says exactly when a delivery is harmless.
- A PENDING_CANCEL answer to a cancellation that carries a new fill leaves the pending-cancel bucket too
  large, so the fill counts twice (`Limits.CancelAnswerKeepsBucketsIff`). A PENDING_CANCEL or
  PENDING_SUBMIT answer to a create request releases a reservation that is still needed
  (`Limits.CreateAnswerKeepsBucketsIff`).
- An unknown order that is adopted with a confirmed quantity but without a fill row never reaches the
  tracker (`FillLedger.CreditedExactlyWhenAdoptionsAre`).
- A create request that ends in a rate limit or an unexpected error is taken back, and one that is refused
  is marked rejected, as if the exchange had no such order. The books stay right exactly when that is so
  (`Limits.CreateErrorKeepsInvIff`); otherwise the whole target may be asked for again while the order
  lives (`Limits.RateLimitLosesALiveOrder`).
- A TWAP execution does not always keep to one aggressive child. After the first look of `run_once` the
  deadline decision passes by an attempt that seems outstanding; if a passive child still shows as open,
  the call looks at the exchange again and may submit without deciding again. A further attempt can follow
  a decision if and only if the attempt seems outstanding, a passive child still shows as open, and the
  exchange has not traded the whole target (`Attempts.FurtherAttemptIff`); there is at most one more
  attempt for each such decision (`Runs.AttemptsAreCounted`), and a call takes such a decision only when
  one of its looks was cut short (`Engine.Execution.RunOnce`). `Limits.CutRefreshAllowsASecondAttempt` is a run
  with two attempts.
- A call of `run_once` that ends active has not filled its target, with one exception: under CHASE a live
  order may be up for repricing, and if it fills while the quote is asked for, the look that follows learns
  of it and the call ends RUNNING with the target filled; the next call completes it
  (`Calls.LooksAndActs` in `Engine.Execution.RunOnce`, `Limits.RepriceMayEndFilled`).
- A ban during the first refresh of `run_once` fails the execution, but the call goes on, and a child can
  be submitted for an execution that is already FAILED: under CHASE after a reprice, and under either
  algorithm when the ban answers the lookup of a child with nothing left to fill and nothing is reserved.
  The overfill and outcome results cover this.
- Three child reports are dropped although they are not errors: PENDING_CANCEL for a child not yet seen
  open (PENDING_SUBMIT or UNKNOWN), and OPEN for a child already seen partly filled
  (`StateMachine.SetChildStatusIsReachability`).

## Model

| member | source | states |
|---|---|---|
| StateMachine.SetChildStatusIsReachability | src/execution/engine.py:1849-1887 | a reported child status is taken over if and only if a walk in the transition table leads to it, three named reports excepted; otherwise the status stays |
| StateMachine.ChildTerminalIsAbsorbing | src/execution/state_machine.py:42-73 | a child status refuses every report if and only if it is one of the three final ones |
| StateMachine.ExecutionTerminalIsAbsorbing | src/execution/state_machine.py:14-39 | a parent status has no transition if and only if it is terminal |
| StateMachine.SetChildStatusIdempotent | src/execution/engine.py:1849-1887 | hearing the same status twice is hearing it once |
| Intervals.CoveredIntervalQuantity | src/execution/engine.py:2068-2088 | the sorted single pass counts exactly the units of [0, confirmed) that lie in some interval, however they overlap or nest |
| Intervals.DisjointMeasure | src/execution/engine.py:2068-2088 | for disjoint intervals inside the limit that measure is the plain sum of lengths |
| Intervals.PrefixEndIsFirstUncovered | src/execution/engine.py:1780-1787 | the end of the contiguous prefix is the first uncovered unit, and the only number that is |
| Intervals.WindowLocalFillInterval | src/execution/engine.py:1761-1798 | a relocated fill keeps its length, lies inside the limit, overlaps nothing, and has a trade id |
| Intervals.FindWindowLocalFillInterval | src/execution/engine.py:1761-1798 | the loop over the sorted intervals finds that interval |
| Sorting.SortedIsUnique | src/execution/engine.py:1818-1827 | a sorted arrangement without ties is determined by its members, so the rebuilt price inputs do not depend on arrival order |
| Schedule.ScheduleIsStepFunction | src/algorithms/twap.py:10-46 | after k completed slices of n the schedule is exactly k/n of the total |
| Schedule.ScheduleIsMonotone | src/algorithms/twap.py:10-46 | the schedule never goes back and stays between nothing and the total |
| Schedule.ScheduleLagsByLessThanASlice | src/algorithms/twap.py:10-46 | the step schedule is never ahead of the straight line and less than one slice behind it |
| Schedule.FloorToStepIsLargestMultiple | src/risk/decimal_math.py:10-15 | rounding down gives the largest multiple of the step that fits |
| Schedule.SafeSizing | src/algorithms/twap.py:49-71 | a child sized from the deficit never takes confirmed plus reserved past the schedule |
| Schedule.TradableStaysInsideTarget | src/execution/models.py:260-271 | trading any part of the tradable quantity keeps the position between start and target, and the dust is below one step |
| Trackers.ExposureTracker.AvailableToSubmit | src/execution/engine.py:106-112 | the available quantity is the largest one the exposure check admits |
| Trackers.ExposureTracker.ReserveLiveOpen | src/execution/engine.py:123-125 | the check comes first; a refused reservation changes nothing |
| Trackers.ExposureTracker.ReservePendingSubmit | src/execution/engine.py:127-129 | the same for the pending-submit bucket |
| Trackers.ExposureTracker.ReserveUnknownCreate | src/execution/engine.py:138-140 | the same for the unknown bucket |
| Trackers.ExposureTracker.ReleasePendingSubmit | src/execution/engine.py:131-136 | the bucket falls by the quantity, never below zero |
| Trackers.ExposureTracker.ReleasePendingCancel | src/execution/engine.py:159-164 | the bucket falls by the quantity, never below zero |
| Trackers.ExposureTracker.ClearUnknownCreate | src/execution/engine.py:142-145 | only the unknown bucket is emptied |
| Trackers.ExposureTracker.MarkPendingCancel | src/execution/engine.py:153-157 | quantity moves from live to pending-cancel and the reserved total stays |
| Trackers.ExposureTracker.ApplyFill | src/execution/engine.py:170-182 | a trade id counts once and the confirmed quantity rises to the cumulative value or stays |
| FillLedger.ReconciliationKeepsLedger | src/execution/engine.py:939-1046 | whatever rows and fills arrive, intervals stay disjoint, non-empty and inside what is confirmed, each trade is booked once, and the tracker misses exactly the uncredited adoptions |
| FillLedger.CreditedExactlyWhenAdoptionsAre | src/execution/engine.py:966-976 | the tracker equals the sum over the children if and only if no order is adopted with a confirmed quantity and no fill row |
| FillLedger.SummaryQuantityIsConserved | src/execution/engine.py:2047-2066 | the summary's price inputs add up to the confirmed quantities, and maker plus taker is part of them |
| Prices.SummaryNotional | src/execution/engine.py:2047-2066 | the summary's price inputs are worth the accepted trades at their own prices plus, child by child, what no trade is booked for at the child's limit price |
| Prices.VwapIsMean | src/observability/summary.py:17-24 | the average price times the quantity is that worth, and it lies between the smallest and the largest input price |
| Prices.InputsInKeyOrder | src/execution/engine.py:1818-1827 | the inputs of named trades come by event time, then transaction time, then trade id |
| Prices.FillsInKeyOrder | src/execution/engine.py:978-985 | the fills of a result are taken over by event time, then transaction time, then trade id, a missing part first |
| Idempotence.ReconciliationIsIdempotent | src/execution/engine.py:546-565 | a second delivery of the same result changes nothing but the count of duplicate events |
| Idempotence.UnknownRowsAreAdopted | src/execution/engine.py:967-975 | every order reported for the first time is adopted as reported, with nothing confirmed yet if the result lists fills for it, and nothing else changes |
| Idempotence.ReportStreak | src/execution/engine.py:1590-1602 | a report ends the reject streak if and only if an unknown order turns out open, filled in part or in full, or cancelled with a fill |
| Coupling.ReportKeepsChild | src/execution/engine.py:1849-1887 | a child that is an earlier view of its order stays one after any report of the order, commits to no more than before, and is left alone once finished |
| Coupling.VenueFillIsAccepted | src/execution/engine.py:1677-1713 | an unseen fill of the venue is always booked at the interval the venue filled |
| Evidence.EvidenceInforms | src/execution/engine.py:939-1037 | rows and fills of any past state keep the record an earlier view, adopt nothing, and every listed trade is then seen |
| Evidence.DeliveryInforms | src/execution/engine.py:939-1046 | so does the whole result when its warning may be believed |
| Evidence.LookupsInform | src/execution/engine.py:886-937 | exact lookups keep the record an earlier view, wherever they are cut short |
| Exactness.ReconciliationHeals | src/execution/engine.py:939-1046 | a full reconciliation gives every child the status and confirmed quantity of its order and touches no finished child |
| Exactness.SummaryIsExact | src/execution/engine.py:2047-2066 | once every trade was seen and every fill confirmed, the reported inputs are the venue's own trades, maker and taker are the venue's own maker and taker quantities, and the average price times the traded quantity is the venue's own notional |
| Exactness.DeliveryIsConfluent | src/execution/engine.py:978-1009 | however earlier fills were batched, ordered, repeated or windowed, one complete reconciliation gives the venue's trades in sort-key order with nothing uncovered, its maker and taker quantities and its average price |
| Invariant.BooksCommit | src/execution/engine.py:1621-1637 | confirmed plus reserved is what the children can still come to |
| Invariant.ExchangeStaysWithinTarget | src/execution/engine.py:1608-1619 | what the exchange has filled and may still fill is at most confirmed plus reserved, and that at most the target |
| Protocol.SubmitBeginKeepsInv | src/execution/engine.py:623-660 | submitting keeps the whole invariant, in particular the caps and the single outstanding child |
| Steps.SubmitEndKeepsInv | src/execution/engine.py:662-729 | so does every outcome of a create request |
| Steps.CancelMarkedKeepsInv | src/execution/engine.py:786-790 | marking a child for cancellation moves its whole remaining quantity, never less |
| Steps.CancelEndKeepsInv | src/execution/engine.py:791-846 | every outcome of a cancellation keeps the invariant |
| Deliveries.RefreshKeepsInv | src/execution/engine.py:886-937 | a refresh keeps the invariant even when it ends before the buckets are rebuilt |
| Deliveries.ExactDeliveryKeepsInv | src/execution/engine.py:1027-1046 | so does a fetched result with exact lookups, through bans, rate limits and other errors |
| Deliveries.StillUnknownIsLast | src/execution/engine.py:1064-1107 | an order still unknown after a fresh result is the last one submitted and was never heard of |
| Runs.StepKeepsInv | src/execution/engine.py:337-565 | every step of the protocol keeps the invariant and moves the record only forward |
| Runs.RunsAreSafe | src/execution/engine.py:337-565 | the invariant holds at every moment of every run |
| Runs.RunsOnlyProgress | src/execution/engine.py:170-182 | over a run confirmed quantities only grow, finished children stay as they are, a terminal parent keeps status and summary, and nothing is created after a cancellation request |
| Runs.StatusesFollowTheTable | src/execution/state_machine.py:76-85 | every parent status change of a run is in the transition table |
| Runs.ExchangeNeverOverfills | src/execution/engine.py:612-846 | at every moment fills at the exchange, and its exposure, stay within the required quantity |
| Runs.PositionStaysInside | src/exchanges/simulator.py:242-245 | the exchange position never passes the target |
| Runs.TwapNeverAheadOfSchedule | src/execution/engine.py:1153-1173 | in a TWAP run confirmed plus reserved never exceeds the completed slices' share of the total |
| Runs.OneOutstandingChild | src/execution/engine.py:381-515 | at most one child can still fill, it is the last one, and the buckets are the fold over the children |
| Runs.DeadlineIsKept | src/execution/engine.py:1376-1409 | a child is aggressive if and only if it was submitted at or after the deadline; a run that cancels its remainder submits none then; the summary's scheduled count past the deadline is zero |
| Runs.AttemptsAreCounted | src/execution/engine.py:414-466 | a TWAP run has at most one aggressive child, and one more for each deadline decision taken over an outstanding attempt while a passive child still showed as open |
| Runs.OneAggressiveAttempt | src/execution/engine.py:414-466 | without such a decision a TWAP run keeps to one aggressive child |
| Attempts.PendingIsAwaited | src/execution/engine.py:662-729 | a child is PENDING_SUBMIT only while its request is being awaited |
| Attempts.FurtherAttemptNeedsOpening | src/execution/engine.py:434-466 | a submission that adds to the aggressive children follows a decision that opened it, at a moment when the exchange had not traded the target |
| Attempts.FurtherAttemptIff | src/execution/engine.py:414-466 | from a deadline decision with an aggressive child on record the call can submit another one if and only if something is reserved, a passive child shows as open, and the exchange has not traded the target |
| Runs.RejectsAreSpaced | src/execution/engine.py:1249-1283 | while running the reject streak is below its limit, and neighbouring rejects are a second apart with a new price or a new quote on the other side, the ask for a buyer and the bid for a seller |
| Submissions.ChildrenAreSubmissions | src/execution/engine.py:623-646 | every child of a run carries the quantity, the price, the style and the time of the submission that created it |
| Causes.StepFate | src/execution/engine.py:1442-1459 | a step fails an active execution if and only if the venue bans it or refuses an order for good, and a rate limit, where it is the answer that cuts the lookups short, blocks it until exactly one second later |
| Causes.FailureIsCaused | src/execution/engine.py:1442-1459 | an execution that has failed was banned or refused on the way |
| Causes.BackOffLastsASecond | src/execution/engine.py:1534-1541 | a back-off in force was started by a rate limit one second before it ends |
| Causes.StepStreak | src/execution/engine.py:1558-1583 | a refused post-only order adds one reject with its price, its quote and the time; an accepted order ends the streak; nothing but evidence touches it otherwise |
| Undoing.SubmissionUndone | src/execution/engine.py:692-705 | a create request that ends in a rate limit, missing market data or an error is taken back: announced and answered, only its client id is used up |
| Undoing.SubmissionLost | src/execution/engine.py:655-691 | a refused order stays as rejected and reserves nothing; one whose answer was lost stays as unknown and reserves all of its quantity |
| Undoing.CancellationUndone | src/execution/engine.py:794-823 | a cancellation that was banned, limited or went wrong leaves the order as live and as reserved as it was |
| Undoing.CancellationAnswered | src/execution/engine.py:803-846 | an order that is over releases what it had reserved; one whose cancellation timed out keeps it, as pending cancel |
| Runs.NoBucketIsTruncated | src/execution/engine.py:123-164 | every bucket holds what a release or a cancellation takes out of it |
| LedgerRuns.FillLedgerAddsUp | src/execution/engine.py:1639-1751 | whatever answers, rows and fills are delivered, at every moment each child's intervals are disjoint, non-empty and inside its confirmed quantity, each trade is booked once, the price inputs add up to the confirmed quantities with maker and taker fills among them, and the tracker has the same total if and only if every adoption so far was credited |
| LedgerRuns.LedgerStepKeepsAccount | src/execution/engine.py:612-1107 | every step, whatever it is told, keeps the ledger and changes what the tracker misses by exactly the uncredited adoptions of that step |
| LedgerRuns.KnownRowsAddUp | src/execution/engine.py:978-1025 | when every row names a child on record the price inputs add up to the tracker's confirmed quantity at every moment |
| LedgerRuns.SidesAddUp | src/execution/engine.py:1746-1751 | at every moment of any ledger run maker is the sum of the accepted quantities whose fill said maker and taker the same for taker; every accepted trade is what a delivered fill said; duplicates are counted once each |
| LedgerRuns.PricesAddUp | src/execution/engine.py:2047-2066 | at every moment of any ledger run the reported inputs are worth the accepted trades plus the uncovered rest at limit prices, and the average price is that worth over the confirmed quantity |
| LedgerRuns.RowConfirmedIsLargest | src/execution/engine.py:954-965 | the quantity the rows vouch for is at least every row's of the order, and is one of them or nothing |
| LedgerRuns.RelocatedFillIsBooked | src/execution/engine.py:986-1009 | an unseen fill whose cumulative quantity is only its own, where the start is taken and a row of the result confirms enough, is booked behind the covered prefix, and its price and quantity are among the inputs |
| LedgerRuns.RunsAddUp | src/execution/engine.py:2047-2066 | every run with a venue behind it is such a run |
| Outcomes.QuietVenueIsFinal | src/exchanges/simulator.py:170-207 | a venue without live orders and requests never trades again |
| Outcomes.UnreservedMeansQuiet | src/execution/engine.py:1461-1521 | with nothing reserved the exchange is quiet and has traded exactly the confirmed quantity |
| Outcomes.ConfirmedIsTraded | src/execution/engine.py:170-182 | the record never claims more than the exchange has traded |
| Outcomes.QuietStays | src/execution/engine.py:466-515 | with nothing reserved and no new child nothing is confirmed any more, whatever is looked up |
| Outcomes.OutcomesAreTrue | src/execution/engine.py:1411-1521 | COMPLETED, PARTIALLY_COMPLETED, EXPIRED and CANCELLED are final and say what the exchange has traded, now and at every later moment |
| Outcomes.SummaryExactlyWhenTerminal | src/execution/engine.py:1433-1521 | the summary exists if and only if the status is terminal, and names it |
| Outcomes.NoOrderAfterCancelRequest | src/execution/engine.py:337-364 | no order exists, now or later, that was created after a cancellation request |
| Outcomes.ReconciliationMakesRunsExact | src/execution/engine.py:939-1046 | after any run one complete reconciliation yields the exchange's trades, maker and taker quantities, average price, statuses and confirmed quantities |
| Limits.DeliveryKeepsViewIff | src/execution/engine.py:1033-1044 | a delivered result keeps the record a view of the venue if and only if its not-found warning is true of every unknown order it does not list |
| Limits.NotFoundKeepsViewIff | src/execution/engine.py:911-917 | a lookup that finds nothing keeps the record a view of the venue if and only if the venue neither has the order nor will have it |
| Limits.StaleWarningLosesALiveOrder | src/exchanges/simulator.py:310-315 | in a reachable state a late warning frees the reservation of an order with exposure 10 |
| Limits.CancelAnswerKeepsBucketsIff | src/execution/engine.py:826-846 | after a cancellation answer the buckets are right if and only if the status is one of the four handled ones or no new fill came with it |
| Limits.PendingCancelAnswerCountsAFillTwice | src/execution/engine.py:839-845 | in a reachable state a PENDING_CANCEL answer with a fill of 4 on an order of 10 leaves 14 confirmed and reserved |
| Limits.CreateAnswerKeepsBucketsIff | src/execution/engine.py:707-729 | after a create response the buckets are right if and only if it does not leave the child pending, or the order is filled |
| Limits.CreateErrorKeepsInvIff | src/execution/engine.py:662-705 | after a create request that ends in an error other than a timeout the invariant holds if and only if the exchange has neither the order nor the request |
| Limits.RateLimitLosesALiveOrder | src/execution/engine.py:693-700 | a rate limit reported for an order that went live leaves exposure 10 at the exchange, nothing on the books, and the whole target open to submission |
| Limits.CutRefreshAllowsASecondAttempt | src/execution/engine.py:414-466 | a TWAP run, with looks cut short by rate limits, that ends with two aggressive children |
| Limits.RepriceMayEndFilled | src/execution/engine.py:457-481 | a CHASE run whose last look learns of a fill that came in while a quote was asked for, RUNNING with its target filled |
| Lookups.CompleteRefreshSettles | src/execution/engine.py:886-937 | after a refresh that was not cut short every child is finished or has something left to fill |
| Engine.Execution.constructor | src/execution/engine.py:322-325 | an execution starts running, with empty books and an empty venue |
| Engine.Execution.SetChildStatus | src/execution/engine.py:1849-1887 | the status becomes the specified one through legal hops, and the answer says whether it is the reported one |
| Engine.Execution.RefreshReservedExposure | src/execution/engine.py:1621-1637 | the loop rebuilds the four buckets as the fold over the children |
| Engine.Execution.UpdateChildCumulativeFill | src/execution/engine.py:1639-1751 | a fill or snapshot is ignored, dropped or booked exactly as specified |
| Engine.Execution.RegisterChild | src/execution/engine.py:623-646 | the child is appended and reserved as specified; the reservation check passes |
| Engine.Execution.TakeCreateOutcome | src/execution/engine.py:662-729 | each answer or error of a create request leaves the specified record; no reservation check fails |
| Engine.Execution.SubmitChild | src/execution/engine.py:612-729 | submission adds to the run exactly the request, what the venue did, and the answer it returns, and ends between calls; without market data exposure and status are what they were; it ends the execution only by a ban, a refusal or the reject limit |
| Engine.Execution.CancelChild | src/execution/engine.py:768-846 | the child is asked to be cancelled if and only if it is open or partly filled with something left and the engine is not backing off, and no other child is; otherwise no child changes; without an attempt the reserved total is unchanged |
| Engine.Execution.CancelChildren | src/execution/engine.py:731-766 | exactly the children that are open or partly filled with something left, and for the timeout loop were submitted long enough ago, for the deadline loop are not aggressive, are asked to be cancelled, save those left out because the execution ends or backs off on the way; the parent changes in no other way |
| Engine.Execution.RefreshOrderStates | src/execution/engine.py:886-937 | the lookups are made and, unless cut short, leave no child open with nothing to fill; the call raises only when an answer it asked for was an error |
| Engine.Execution.TakeEvidence | src/execution/engine.py:948-1025 | the three loops of a result give the specified record |
| Engine.Execution.ResolveUnknownChildren | src/execution/engine.py:1064-1107 | lookups of unknown children give the specified record up to the first error |
| Engine.Execution.ConcludeReconciliation | src/execution/engine.py:1033-1062 | the warning and the rebuilt buckets give the specified record |
| Engine.Execution.TakeResult | src/execution/engine.py:939-1046 | any result, whatever it holds, gives exactly the specified record |
| Engine.Execution.FailForVenueBan | src/execution/engine.py:1449-1459 | a ban fails the execution and the exposure check made on the spot passes |
| Engine.Execution.ApplyResultExactLocked | src/execution/engine.py:939-1046 | this fetched result, with lookups of what it leaves unknown, is taken over by a step of the run; the call raises only when such a lookup was an error |
| Engine.Execution.ReconcileLocked | src/execution/engine.py:848-884 | a fetched result is taken over, a ban ends the execution, a rate limit starts a back-off of one second, and only an error raises; nothing is asked to be cancelled |
| Engine.Execution.AssertExposureInvariant | src/execution/engine.py:1608-1619 | the exposure check that closes every operation passes |
| Engine.Execution.RateLimitBackoffBlocks | src/execution/engine.py:1543-1556 | the call is blocked exactly while the back-off lasts; an expired one is cleared |
| Engine.Execution.RejectGateBlocks | src/execution/engine.py:1249-1283 | a post-only order is blocked if and only if the last reject was less than a second ago, or at the same price against the same ask for a buyer, the same bid for a seller |
| Engine.Execution.TerminalizeRejectLimit | src/execution/engine.py:1479-1498 | the streak ends the execution exactly at its limit and with nothing reserved |
| Engine.Execution.CompleteLocked | src/execution/engine.py:1433-1440 | an active execution becomes COMPLETED; with the target filled this is a step of the run |
| Engine.Execution.TerminalizeDeadlineLocked | src/execution/engine.py:1461-1477 | a deadline ends a running execution only with nothing reserved; with the target missed this is a step of the run |
| Engine.Execution.TerminalizeManualCancelLocked | src/execution/engine.py:1500-1521 | a cancelling execution completes, ends, or waits for what is reserved |
| Engine.Execution.ExpireForValidation | src/execution/engine.py:1411-1431 | a failed validation ends a running execution, whatever is outstanding; with nothing outstanding and the target missed this is a step of the run |
| Engine.Execution.BuildChildDemand | src/execution/engine.py:1140-1247 | a demand satisfies every condition of submission; it is the largest that fits, at the quote and the checked price; the engine refrains only when nothing fits, the validation failed or the last reject was too recent or unchanged; a refused order past the deadline, or one that can never be valid, ends the execution, and nothing else does |
| Engine.Execution.DemandIsLargest | src/execution/engine.py:1153-1176 | the quantity asked for is a multiple of the step that target and schedule admit, and one more step would not be |
| Engine.Execution.CancelActiveChildren | src/execution/engine.py:731-739 | exactly the children open or partly filled with something left when the loop started are asked to be cancelled, save those left out because the execution ends or backs off on the way |
| Engine.Execution.MaybeRepriceChase | src/execution/engine.py:1109-1138 | an execution with a live child and a fresh quote is repriced if and only if the repricing rule says so, and has then asked for the cancellation of exactly the children that were open or partly filled with something left, unless it ended or backs off; otherwise the record is unchanged |
| Engine.Execution.NoPassiveLeft | src/execution/engine.py:1368-1374 | after a complete refresh an execution with an aggressive child shows no passive one as open |
| Engine.Execution.CancelDueChildren | src/execution/engine.py:434-466 | a further attempt is opened if and only if an aggressive child is on record and a passive one shows as open; timed-out children, and past an aggressive deadline passive ones, are asked to be cancelled; then the demand is submitted or there is a reason not to |
| Engine.Execution.CancelAllAndTerminalize | src/execution/engine.py:389-402 | every child open or partly filled with something left is asked to be cancelled, and afterwards the execution has ended, or has something outstanding and has not filled its target |
| Engine.Execution.HandleStaleMarket | src/execution/engine.py:467-483 | the exchange is looked at again, and past the deadline every live child is asked to be cancelled and the execution ends or has something outstanding; with nothing reserved nothing new is confirmed |
| Engine.Execution.SubmitDemand | src/execution/engine.py:456-517 | the largest demand that fits is submitted at the quote and the checked price, or the call has a reason to refrain: it ended the execution, something is outstanding, there was no quote, the check refused the order, nothing fits, or the last reject was too recent or unchanged |
| Engine.Execution.RunOnce | src/execution/engine.py:366-517 | finished executions and ones that back off are left alone; otherwise the exchange is looked at; only a look cut short opens a further aggressive attempt; a cancelling execution has then ended, or has something outstanding and the target unfilled. A running execution with nothing unknown, unless an error is handed on, has submitted the largest demand that fits or had a reason not to, has asked to cancel every timed-out child, past an aggressive deadline every passive one, past a cancelling deadline or with unhealthy streams or a stale quote every live one, has consulted the repricing rule of CHASE before leaving a live child and followed it, and, if it is still active, has not filled its target (a CHASE order up for repricing excepted). It ends short of the target only past its deadline, for an order that can never be valid, or at the reject limit, and raises only for an error it was given |
| Engine.Execution.CancelExecution | src/execution/engine.py:337-364 | cancellation is on record; exactly the children open or partly filled with something left when the loop starts are asked to be cancelled, unless the execution ends or backs off on the way; a fetched result has been taken over, and the execution has ended or has something outstanding; while backing off nothing is asked |
| Engine.Execution.ReconcileExecution | src/execution/engine.py:519-544 | unless backing off, a fetched result is taken over, a ban ends the execution, a rate limit starts a back-off of one second, and only an error raises; an execution that is still active has not filled its target, and one still cancelling has something outstanding |
| Engine.Execution.ApplyReconciliationResult | src/execution/engine.py:546-565 | for any result the record is exactly the specified one, and an error is raised if and only if it does not fit the target; an execution still active has not filled its target, and one still cancelling has something outstanding; the ledger stays in order when the rows name the execution's orders; evidence of the exchange never raises and extends the run |
| Engine.Execution.SummaryVwapInputs | src/execution/engine.py:2047-2066 | the returned inputs are the specified ones; whenever the ledger is in order they add up to the children's confirmed quantities and are worth the accepted trades plus the uncovered rest at limit prices, and in a run they add up to the tracker's confirmed quantity |
| Engine.Execution.PostDeadlineSubmissionCounts | src/execution/engine.py:2017-2045 | the count is that of the children submitted after the deadline; none of them counts as scheduled, and there is none at all when the remainder is cancelled |
| Simulators.Simulator.SubmitLimitOrder | src/exchanges/simulator.py:139-168 | without a fresh, uncrossed quote there is no answer; refused are exactly unsupported styles and post-only orders that would trade at once; otherwise the request is lost or becomes an open order, exactly as scripted; for a new client id and a positive quantity the answer is true and the simulator moves as a venue does |
| Simulators.Simulator.PushFill | src/exchanges/simulator.py:216-266 | a fill is accepted if and only if it is positive, for a live order and within its remaining quantity; it is returned with its price, its time and the next trade id, continues the order's tiling and moves the position |
| Simulators.Simulator.CancelOrder | src/exchanges/simulator.py:170-207 | the order ends filled, cancelled or open again as scripted; only a scripted fill that cannot be booked leaves it pending |
| Simulators.Simulator.GetOrderByClientOrderId | src/exchanges/simulator.py:209-214 | a lookup reports the order as it is, or that it does not exist |
| Simulators.Simulator.ReconcileOrdersAndFills | src/exchanges/simulator.py:282-315 | every order and exactly the fills of the window are returned |
| Simulators.Simulator.ResultIsEvidence | src/exchanges/simulator.py:282-315 | such a result is true evidence, and complete without a window |
| Simulators.SimulatorDeliveryIsConfluent | src/exchanges/simulator.py:247-257 | after any deliveries one unwindowed reconciliation gives the simulator's own trades and the true average price |
| SliceLedger.SliceContainsSubmission | src/execution/engine.py:2180-2203 | a child is booked in slice k if and only if it was submitted inside that slice |
| SliceLedger.ColumnsAddUp | src/execution/engine.py:2117-2137 | over all slices every column is the total over the children |
| SliceLedger.TwapSliceLedger | src/execution/engine.py:2090-2145 | the three loops produce the specified rows |
| SliceLedger.PlannedIsScheduled | src/execution/engine.py:2155-2163 | a row's planned cumulative quantity is the schedule at the end of its slice |
| SliceLedger.PlannedTelescopes | src/execution/engine.py:2155-2167 | the planned slice quantities telescope |
| SliceLedger.LedgerIsConserved | src/execution/engine.py:2138-2145 | submitted and filled columns are the children's totals, the planned column is the required quantity, and the last deficit is what is missing |
| SliceLedger.RunLedgerIsConserved | src/execution/engine.py:2090-2145 | at every moment of a run the filled column is the tracker's confirmed quantity, within the required one, the last deficit is the rest, and every child is booked by a known submission time |

## Left out

- Runs.PositionStaysInside: the tracker's tolerance is taken as zero, which is the only value the engine uses.
- Outcomes.OutcomesAreTrue: says nothing about FAILED, which a ban can reach with orders still live.
- Protocol.SubmitBeginKeepsInv: order ids, exchange order ids and raw statuses other than the sequence number are not modelled.
- Simulators.Simulator.SubmitLimitOrder: market data streams, event queues and the choice of symbol are left out, and scripts for one execution are counters.
- Simulators.Simulator.ReconcileOrdersAndFills: fills injected from outside are left out, because they need not tile their order.
- Engine.Execution.MaybeRepriceChase: the repricing decision and the quote are arbitrary, which covers the rules of the chase algorithm.
- Engine.Execution.BuildChildDemand: prices and the outcome of the order validation are arbitrary; the price-shape checks themselves are not modelled.
- Engine.Execution.ResolveUnknownChildren: children are values in a sequence, so sharing of order objects between engine and simulator is not captured.
- LedgerRuns.FillLedgerAddsUp: rows are taken to name orders with sequence numbers the execution has used, as the client order prefix of a fetched result guarantees.
- Engine.Execution.constructor: starts at RUNNING with a positive required quantity, duration, number of slices and reject limit.
- Adapters.Venue: fetched results list every order of the execution, and carry the not-found warning only when no request is on its way; an order a lookup does not find never appears later; a create request that ends in an error other than a timeout leaves no order. For the warning, lookups and create errors `Limits` has the exact condition.
- Admission before RUNNING (position read, minimum quantity and notional, dust) is covered only by the sizes it yields.
- Final and terminal reasons, metric counters other than duplicates, slippage and completion metrics, and summary formatting.
- Rounding of decimals at 28 digits; the model's arithmetic is exact.
- Trade ids are numbers, a missing one sorting first; the string order of padded ids agrees with this.
- Time that passes inside one engine call.
- The Binance adapter (HTTP, signing, websockets, its own cumulative sums), the API, the runtime that allows one execution per symbol, configuration, scripts and artifacts.
- Liveness: an order left open during CANCELLING is not cancelled again, so nothing is claimed about termination.
