# Proofs about a school's billing, schedule, login codes and events

This project models five parts of the school backend and proves what they keep
over every run: the billing order engine, the weekly schedule with its one-off
changes, one-time login codes, event seats, and money as text. Amounts are whole
kopecks, dates are day numbers or Gregorian dates. Moments are whole seconds, and
microseconds where a bound depends on the grain of the clock (login codes).

## How it is built

Each service is a function from one committed state to the next, with every
branch and error of the code. A run is any finite sequence of service calls, with
any arguments, schedules, payments and clock readings. The main results quantify
over all runs.

- **Billing.** `BillingModel` holds the rows, `BillingSteps` the services,
  `BillingInvariant` the joint invariant, the `BillingKeeps*` modules show that
  each kind of step keeps it, `BillingRuns` puts the steps together,
  `BillingHistory` says what one step can do to one order, and
  `BillingTheorems` draws the conclusions for every run from an empty database.
  `BillingCheckout`, `BillingConfirm` and `BillingAnswers` say what a checkout, a
  payment confirmation and the token, expiry and refund services answer, decided by
  the rows before the call and without their step functions; `BillingEffects` says
  what single services keep and undo, `BillingSweeps` adds the batches of the two sweeps and of the refund tick,
  and `BillingReports` follows payment ids from the provider's report to the refund.
  `BillingService` is the engine as it runs: a class that updates its tables row
  by row, loops over slots and batches, and rolls back. `PerformAll` ties it to
  the runs, so each theorem about runs is a theorem about these methods.
- **Concurrency.** `Idempotency`, `SeatBooking`, `DebitRace`, `LockOrder`,
  `MaskRuns`, `OtpRaces` and the second half of `Events` (with `EventSweeps` on what
  an expiry sweep may release) are transition systems with workers
  that have a program counter, held locks, local copies and uncommitted writes.
  Workers may stall, fail and crash between any two statements.
- **Schedule.** `ScheduleModel` is one mask creation and the shown week,
  `ScheduleAnswers` the field by field reference for both, `MaskRuns` the interleaved
  creations, `ScheduleService` the loops and the store.
- **Login codes and events.** `Otp` and `Events` are the state machines,
  `OtpService` and `EventService` the services over tables they update in place.
  `OtpRaces` takes requests, verifications and purges of one email apart into
  statements and proves the limits of `Otp` again for every interleaving.
- **Shared.** `Calendar` is Gregorian arithmetic, `Money` decimal text, `Sums`
  finite sums, `Wrappers` options and results.

## Modelling decisions

- A checkout inserts one subscription and one transaction; both carry the same
  fresh order number. Enrollment and token rows are named by order and slot.
- A coarse step reads the clock once. The fine-grained systems let the clock run
  between statements.
- Plans, students, slot capacities and next lesson dates are arguments of each
  step and may differ from step to step. The only demands are a price that is not
  negative, at least one slot per plan, and valid lesson dates (`WorldOk`).
- Foreign keys, and the unique and check constraints that the services rely on,
  are database rules. Where the code handles their failure, the failure is
  modelled, and in two cases proved unreachable.
- The refund provider answers a call or not, and takes it or not; it pays a call it
  takes unless it took an earlier one with the same key.
- A foreign key check share-locks the row it refers to, at the insert or, for a
  deferred constraint, at the commit; `LockOrder` covers both. Of these locks only
  the one on a group row ever meets an exclusive lock of another job.
- The candidate lists of the sweeps and of the refund tick are what the query
  answers: oldest first, at most the chunk size, nothing older left out
  (`StaleBatch`, `ExpiredBatch`, `RefundBatch`).
- The gateway is a verified status, an amount, a currency and a payment id. A
  late success is taken to have captured the amount of its transaction, because
  the code does not compare them on that path.

## Where the code does not do what one might expect

- The reclaiming update of the checkout key does not compare requests. With a
  stall longer than the lease a replay can be given the order of a different
  request under the same key (`StalledReplayCrosses`); up to the lease it cannot,
  and that bound is exact (`ReplaysMatchIffPrompt`).
- A token refund reads the subscription status without a lock and can give a
  session back after the expiry sweep has charged it (`LateGiveBackDiverges`). The
  charge agrees with the debits when the sweep commits, and stays so in every
  continuation exactly when no token refund of a debited mark that read the
  subscription as active is still under way (`SweepLeavesAgreement`; for every later
  moment `StaysAccountedIff`).
- A code request that stalls for more than four minutes creates a code that is
  purged together with the memory of its cooldown (`StalledBreaksCooldown`). The
  exact bound is four minutes and one tick of the clock, a microsecond
  (`CooldownHoldsIffPrompt`, for atomic calls and statement by statement).
- A success replayed after its refund was finished or quarantined flags an order
  canceled by the sweep once more (`SuccessIgnoredIff`).
- An event registration whose payment is confirmed after an expiry sweep selected
  it is canceled by that sweep (`SweepMayCancelConfirmed`). Everything a sweep releases
  was unpaid and overdue when it was selected, and is still so at the release exactly
  when no confirmation took effect in between (`SweepReleasesOverdue`).
- Text with more than 28 significant digits, or with more than 1000028 decimal
  places, can be accepted although it is not a whole number of kopecks; shorter text
  is never misread (`SafeDigitsAndPlaces`).
- The documents differ from the code in three places, and the model follows the
  code: a success that arrives after the sweep is never given its seats back but
  always refunded (docs/api-core-contracts.md:440), a timed out transaction is
  CANCELED with a reason and there is no status for a used-up subscription
  (docs/schema-audit.md:54), and five wrong codes do not use the code up, they
  only stop further comparisons (docs/auth-flow.md:56).

## Model

| member | source | states |
|---|---|---|
| `BillingTheorems.DepositsNeverMint` | apps/billing/services.py:402-433 | In every run, a parent's balance plus the deposit tied up in open and active orders never exceeds the card money paid for that parent's expired orders. |
| `BillingTheorems.JournalIsExact` | apps/billing/models.py:355-415 | Every balance is non-negative and equals the sum of its journal entries, no source is posted twice for one reason, and deposit share plus card amount is the purchase price of every order. |
| `BillingTheorems.DepositBackIffClosed` | apps/billing/services.py:794-819 | The deposit share of an order is posted back if and only if the order is closed and used one, and never twice. |
| `BillingTheorems.UniquenessNeverFires` | apps/billing/services.py:804-816 | Whenever a service is about to post a spend, a return or a credit, no such entry exists, so the handlers of the journal's uniqueness failures are dead. |
| `BillingTheorems.JointOrderInvariant` | apps/billing/services.py:583-717 | Pending transaction: pending subscription, no enrolled seat, no token. Fulfilled: all selected slots enrolled (or the subscription expired) and exactly one token row per selected slot. Any other outcome: subscription canceled, no live seat, no token, deposit returned. |
| `BillingTheorems.DeadConfirmationBranches` | apps/billing/services.py:666-677 | On reachable states a success never finds damaged data, an empty selection or a subscription it cannot activate. |
| `BillingTheorems.FulfilledIff` | apps/billing/services.py:598-713 | A confirmation activates a pending order exactly when currency and amount match, the schedule knows every slot and every seat is still held with room besides the others; otherwise it closes the order. |
| `BillingConfirm.SuccessAnswers` | apps/billing/services.py:583-717 | The answer to a success, from its input alone. A pending order: another currency or amount, and only that, fails it as AMOUNT_MISMATCH with nothing to refund; otherwise it becomes active and unflagged, with the exact window, seats and tokens, or it is closed as SUCCEEDED with the payment id and flagged for refund, the reason being the first check that fails. A decided order: only a payment after the sweep is flagged, once. |
| `BillingConfirm.FirstProblem` | apps/billing/services.py:740-772 | The seat check reports the first slot that fails and why: hold lost, slot removed, or seats taken by others. |
| `BillingConfirm.CancellationAnswers` | apps/billing/services.py:822-832 | A cancellation closes exactly the pending order: every seat and the subscription canceled, the deposit share and its journal entry back, no other row touched. |
| `BillingConfirm.SweepAnswers` | apps/billing/services.py:917-932 | A sweep turn closes its order in the same way, marked as timed out, if it is still pending. |
| `BillingConfirm.TimedOutAnswers` | apps/billing/services.py:903-932 | An order times out exactly when it has been pending for more than fifteen minutes. |
| `BillingCheckout.AcceptedIff` | apps/billing/services.py:313-453 | A checkout is accepted exactly when the request is valid, every requested slot has room and does not already seat the student (stale holds aside), and, if the deposit pays it all, the schedule knows every slot. |
| `BillingCheckout.AcceptedLeaves` | apps/billing/services.py:366-448 | The new transaction, subscription, seats and tokens are exactly those requested (a prepaid order active with its window, any other pending), the deposit pays as far as it reaches with one journal entry, and nothing of other orders changes but their stale holds in those slots. |
| `BillingCheckout.RefusedBecause` | apps/billing/services.py:325-400 | Every refusal names its cause: unknown plan, wrong number of slots, foreign student, the lowest slot that cannot be booked and whether it is unknown, full or already taken by the student, or a prepaid slot without a next lesson. |
| `BillingCheckout.BookSlotsIff` | apps/billing/services.py:376-400 | The slot loop, whose checks see its own writes, succeeds exactly when every slot could be booked before it, and otherwise stops at the lowest that could not. |
| `BillingTheorems.FirstEventWins` | apps/billing/services.py:588-605 | Whatever successes, cancellations and sweeps follow, a decided transaction keeps the status the first of them gave it. |
| `BillingTheorems.ReplayedSuccess` | apps/billing/services.py:594-605 | Applying one verified success twice in a row is applying it once, and the second raises nothing. |
| `BillingTheorems.SuccessIgnoredIff` | apps/billing/services.py:595-604 | A success leaves the database alone exactly when its order is unknown, or decided and not canceled by the sweep, or already flagged for refund. |
| `BillingTheorems.TokenConservation` | apps/billing/services.py:263-310 | While a subscription is active, tokens left plus debited marks of a slot make up its grant; after expiry none are left. |
| `BillingTheorems.DebitsStopAtGrant` | apps/billing/services.py:282-310 | A mark that may be debited always finds its token row, and is debited exactly while fewer marks of its slot than the grant have been. |
| `BillingAnswers.DebitAnswers` | apps/billing/services.py:263-310 | A debit succeeds exactly for a debited mark (changing nothing) or an attended mark of an enrolled seat whose subscription is active, whose window has not ended and which has a token left (moving one token); every refusal names a condition that fails. |
| `BillingAnswers.GiveBackAnswers` | apps/billing/services.py:1227-1267 | A token refund returns one token exactly for a debited mark of an active subscription, changes nothing for a mark not debited, and names why it is refused otherwise. |
| `BillingAnswers.StatusAnswers` | apps/billing/services.py:1270-1296 | Marking a lesson attended takes a token or fails; taking a debited mark back returns the token or fails; any other change moves no token. |
| `BillingAnswers.OpenAnswers` | apps/journal/services.py:20-45 | Opening a lesson adds one attended, undebited mark for an enrolled seat that has none on that day. |
| `BillingTheorems.DebitedMeansAttended` | apps/billing/services.py:282-310 | A debited mark is an attended mark of a slot that has a token row. |
| `BillingTheorems.CreditStands` | apps/billing/services.py:974-1009 | From expiry on, the journal holds a credit exactly when the price is positive and exceeds base price times debited sessions; its amount is the price less that product, never more than the price, posted once, whatever debits, token refunds and attendance changes are attempted later. |
| `BillingAnswers.ExpiryAnswers` | apps/billing/services.py:940-1009 | A subscription expires exactly when active with a window that has ended: seats canceled, tokens cleared, and the parent credited with price less base price per debited mark, within nothing and the price; no other row changes. |
| `BillingAnswers.CreditAnswers` | apps/billing/services.py:974-1009 | The same amount, deposit and journal entry for the credit alone. |
| `BillingTheorems.WindowHoldsGrantedLessons` | apps/billing/services.py:880-900 | The window opens no later than the next lesson of each selected slot and holds at least as many lessons of that slot's weekday as it is granted tokens. |
| `BillingTheorems.RefundCallsAreSafe` | apps/billing/services.py:1053-1063 | Every refund call carries the key and the full amount of its transaction, and its order holds no seat, no token and no spent deposit. |
| `BillingTheorems.PaidBackOnce` | apps/billing/services.py:1059-1063 | Over the whole log of refund calls a provider that pays each key once pays a transaction exactly its amount if it took any call for it, and nothing otherwise. |
| `BillingReports.RefundsGoToReportedPayments` | apps/billing/services.py:1059-1063 | Every refund call names a payment that some verified success of the run reported for that transaction. |
| `BillingTheorems.ClaimsTenMinutesApart` | apps/billing/services.py:1034-1046 | Two claims of a refund that stayed flagged in between come from ticks more than ten minutes apart, whatever other workers did. |
| `BillingRuns.RunKeepsInv` | apps/billing/services.py:263-1296 | Every sequence of service calls keeps the joint invariant of orders, tokens, balances, journal and refunds. |
| `BillingRuns.NoProblemIffReady` | apps/billing/services.py:762-772 | The check before enrolling succeeds exactly when every slot is held by the order, known, and has room besides the own seat. |
| `BillingHistory.EveryStep` | apps/billing/services.py:822-832 | One service call moves an order at most one step along its life: the transaction keeps its amount, slots and parent and is decided at most once, the subscription never comes back from canceled or expired, and a refund claim is only ever replaced by a later one. |
| `BillingHistory.DecidedOrderStays` | apps/billing/services.py:583-717 | Whatever is called, a decided order keeps its status, money and set of seats and token rows; its seats are enrolled while its subscription is active, and only an expiry ends that. |
| `BillingSteps.FirstLessonIsEarliest` | apps/billing/services.py:893-896 | The window starts with a lesson of one of the slots and no slot has an earlier one; it fails only at a slot the schedule does not know. |
| `BillingSteps.FirstLessonKnownIff` | apps/billing/services.py:893-896 | The first lesson exists exactly when the schedule knows every slot. |
| `BillingSweeps.SweepLeavesOnlyNewer` | apps/billing/services.py:907-933 | What is still stale after a sweep is no older than anything swept, and there is some only after a full chunk. |
| `BillingSweeps.SweepStaleRows` | apps/billing/services.py:918-932 | A sweep cancels its whole batch with the expiry reason and touches no other transaction. |
| `BillingSweeps.ExpiryLeavesOnlyNewer` | apps/billing/services.py:940-971 | What is still due after an expiry sweep expires no earlier than anything swept, and there is some only after a full chunk. |
| `BillingSweeps.RefundTickCloses` | apps/billing/services.py:1025-1086 | When the provider answers every call, one tick closes every candidate it can claim, pays and counts the accepted ones, leaves those under another worker's lease alone and touches no other transaction. |
| `BillingAnswers.CandidateAnswers` | apps/billing/services.py:1034-1086 | One candidate: left alone under a running lease; otherwise one call with the key, payment and full amount, and a row that is closed with the refund id, quarantined, or, without an answer, still flagged under a lease of ten minutes. |
| `BillingAnswers.UnansweredComesBack` | apps/billing/services.py:1034-1065 | A refund without an answer stays flagged and can be claimed again exactly when its ten minutes have passed. |
| `BillingAnswers.TickAnswers` | apps/billing/services.py:1021-1086 | A tick handles its candidates in order up to the first call without an answer, touches no row after it, and counts exactly the accepted refunds. |
| `BillingService.BillingStore.CreatePayment` | apps/billing/services.py:313-453 | The checkout with its slot loop, deposit, invoice and prepaid path has exactly the effect of the checkout step and none when it fails; on reachable tables it is accepted, refused and answered as `AcceptedIff`, `RefusedBecause` and `AcceptedLeaves` say. |
| `BillingService.BillingStore.FulfillPrepaidOrder` | apps/billing/services.py:487-522 | A prepaid order is activated, enrolled and granted its tokens in one go, or not at all. |
| `BillingService.BillingStore.TryEnrollHeldSeats` | apps/billing/services.py:740-777 | All seats are enrolled or none, and the reason names the first seat that fails its check. |
| `BillingService.BillingStore.ApplySuccess` | apps/billing/services.py:583-717 | Applying a success statement by statement has exactly the effect and the deferred error of the step, and on reachable tables the answer of `SuccessAnswers`. |
| `BillingService.BillingStore.ConfirmPayment` | apps/billing/services.py:556-571 | The verified status decides; a success has the answer of `SuccessAnswers`, an intermediate status changes nothing. |
| `BillingService.BillingStore.ApplyCancellation` | apps/billing/services.py:822-832 | A pending order ends canceled with the payment id and holds no live seat, no pending subscription and no deposit share; any other order, and every other row, stays. |
| `BillingEffects.CancellationEffect` | apps/billing/services.py:822-832 | The same of the step, on any tables. |
| `BillingService.BillingStore.ReleaseOrderResources` | apps/billing/services.py:780-791 | Afterwards the order has no live seat, no pending subscription and no deposit share to return, and seats, subscriptions and transactions of other orders are as before. |
| `BillingEffects.ReleaseEffect` | apps/billing/services.py:780-791 | The same of the step, and the share goes back exactly when it was due. |
| `BillingService.BillingStore.ReturnDepositHold` | apps/billing/services.py:794-819 | If a share is due, the parent's balance grows by it, the journal sums grow by as much as the balances, and the transaction is marked; otherwise no money moves. A second call finds nothing due. |
| `BillingEffects.ReturnEffect` | apps/billing/services.py:794-819 | The same of the step, on any tables. |
| `BillingService.BillingStore.SweepStalePendingTransactions` | apps/billing/services.py:903-933 | The whole batch ends canceled with the expiry reason, the count is right, other transactions are untouched. |
| `BillingService.BillingStore.SweepExpiredSubscriptions` | apps/billing/services.py:936-971 | Exactly the batch expires, and the journal holds for each subscription of it the price less base price per debited session, within nothing and the price. |
| `BillingService.BillingStore.CreditUnusedSessions` | apps/billing/services.py:974-1009 | Summing the token rows in a loop and clearing them credits the price less base price per debited mark, within nothing and the price, to the deposit and the journal. |
| `BillingService.BillingStore.IssuePendingRefunds` | apps/billing/services.py:1021-1086 | One tick claims, calls and records candidate by candidate, stops at the first network failure, leaves later rows alone and returns the number of accepted refunds. |
| `BillingService.BillingStore.ClaimRefund` | apps/billing/services.py:1034-1051 | A claim starts one job for the confirmed payment and the full amount, or quarantines a refund without a payment; nobody can claim it again for ten minutes, and other transactions stay. |
| `BillingEffects.ClaimEffect` | apps/billing/services.py:1034-1051 | The same of the step, and without a claim nothing changes. |
| `BillingService.BillingStore.DebitToken` | apps/billing/services.py:263-310 | The condition and the effect of `DebitAnswers`; tokens left plus debited marks of every seat are what they were, and each refusal changes nothing. |
| `BillingEffects.DebitEffect` | apps/billing/services.py:263-310 | The same of the step: one mark is stamped, and every seat keeps tokens left plus debited marks. |
| `BillingService.BillingStore.RefundToken` | apps/billing/services.py:1227-1267 | The condition and the effect of `GiveBackAnswers`; tokens left plus debited marks of every seat are what they were, and each refusal changes nothing. |
| `BillingEffects.RefundEffect` | apps/billing/services.py:1227-1267 | The same of the step: one mark is cleared, and every seat keeps tokens left plus debited marks. |
| `BillingEffects.RefundUndoesDebit` | apps/billing/services.py:1243-1267 | A token refund after a fresh debit succeeds and restores every table. |
| `BillingService.BillingStore.SetAttendanceStatus` | apps/billing/services.py:1270-1296 | Status and token move in one transaction as `StatusAnswers` says: when the token cannot move, the status stays. |
| `BillingService.BillingStore.PerformAll` | apps/billing/services.py:263-1296 | Any sequence of calls on the tables is a run of the engine and keeps the joint invariant. |
| `Idempotency.AtMostOneOrder` | apps/billing/services.py:341-364 | However many workers share a key and however they stall, crash, reclaim or fail, at most one order commits between two sweeps of the record. |
| `Idempotency.TakenOverOnlyAfterLease` | apps/billing/services.py:352-364 | In every run, a lease on an unfinished record ends only when its holder finishes or gives up, when a worker takes over whose clock reading lies after the end of the lease, or when it is swept more than a day after that end. |
| `Idempotency.ReclaimsIff` | apps/billing/services.py:357-364 | A reclaiming worker becomes owner exactly when the record is unfinished and its lease ended before that worker's clock reading; it then holds a lease of a quarter of an hour. |
| `Idempotency.PromptOwnerCommits` | apps/billing/services.py:454-475 | Until its lease ends an owner keeps the record whatever the other workers do, and its order commits. |
| `Idempotency.FirstLookAnswers` | apps/billing/services.py:338-356 | The first statement answers by the record alone: reserved, refused for another request, replayed, or on to the reclaiming update. |
| `Idempotency.LastLookAnswers` | apps/billing/services.py:454-482 | The order commits exactly under the own fencing token; an owner that lost it answers with the order found, if any. |
| `Idempotency.SweepAnswers` | apps/billing/services.py:1111-1121 | A record is swept exactly when it is more than a day old and no lease of it ended within the last day. |
| `Idempotency.AnswersCarryTheOrder` | apps/billing/services.py:454-484 | Every order handed to a client is the one committed under that record. |
| `Idempotency.OneOrderADay` | apps/billing/services.py:1111-1121 | For 24 hours from the creation of a record no sweep ends it, and at most one order commits. |
| `Idempotency.ReplacedOwnerCommitsNothing` | apps/billing/services.py:454-475 | An owner whose fencing token was replaced or deleted commits nothing, however the run goes on. |
| `Idempotency.ReplaysMatchIffPrompt` | apps/billing/services.py:352-364 | A direct replay returns the order of an identical request in all runs with stalls up to a bound, exactly when the bound is within the 15-minute lease. |
| `Idempotency.StalledReplayCrosses` | apps/billing/services.py:357-362 | With any longer stall, a run in which a replay is given another request's order. |
| `SeatBooking.EveryStepIsSafe` | apps/billing/services.py:376-400 | Every step either does not raise the occupancy of a slot, or is a commit that ends within the capacity its worker read for that slot. |
| `SeatBooking.BookAnswers` | apps/billing/services.py:376-400 | With the slot locked, a checkout books it exactly when there is room and the student does not sit there, judged by committed rows and its own writes; otherwise it ends. |
| `SeatBooking.RecheckAnswers` | apps/billing/services.py:759-772 | A confirmation takes its held seat exactly when there is room besides the others; otherwise it ends. |
| `SeatBooking.CommitAnswers` | apps/billing/services.py:502-507 | A commit publishes exactly the staged seats, enrolled if prepaid, and frees the locks. |
| `SeatBooking.EveryReachableStepIsSafe` | apps/billing/services.py:376-400 | The same in every state that any interleaving reaches, capacity changes included. |
| `SeatBooking.OccupancyBelowPeak` | apps/billing/services.py:376-400 | In every interleaving, capacity changes included, a slot never holds more seats than the largest capacity it had so far. |
| `SeatBooking.NoOverbooking` | apps/billing/services.py:740-777 | While its capacity is left alone, no interleaving of checkouts and confirmations overbooks a slot. |
| `DebitRace.ChargedEqualsDebits` | apps/billing/services.py:286-310 | Although a debit reads the status unlocked, in every interleaving of debits with the sweep the sessions charged are the debits that committed. |
| `DebitRace.AloneMoves` | apps/billing/services.py:263-310 | A debit or token refund that nobody disturbs moves one token exactly while the subscription is active, the mark allows it and, for a debit, a token is left. |
| `DebitRace.ChargedAccounted` | apps/billing/services.py:974-991 | With token refunds too, at any moment after the sweep the charge is the standing debits plus the tokens left. |
| `DebitRace.StaysAccountedIff` | apps/billing/services.py:1227-1267 | At any moment after the sweep, charge and debits agree in every continuation exactly when they agree now and no token refund of a debited mark that read the subscription as active is under way. |
| `DebitRace.SweepLeavesAgreement` | apps/billing/services.py:936-991 | When the sweep commits they agree, and they go on agreeing whatever follows exactly when no such refund is under way. |
| `DebitRace.LateGiveBackDiverges` | apps/billing/services.py:1243-1267 | A run in which a token refund takes back a session that stays charged. |
| `LockOrder.PlansClimb` | apps/billing/services.py:377-409 | Every lock a job takes, the share locks of foreign key checks on group rows included, comes after everything another job may want while waiting for a lock already held: transaction, subscription, slots ascending, deposit; room, teacher. |
| `LockOrder.CheckoutTakes` | apps/billing/services.py:376-409 | A checkout locks every requested slot, shares every group row, and locks the deposit exactly if it uses it. |
| `LockOrder.OthersTake` | apps/billing/services.py:583-819 | Confirmations, cancellations and sweeps lock transaction, subscription and deposit (a confirmation every selected slot too), a mask its group, room and teacher. |
| `LockOrder.LocksExclude` | apps/billing/services.py:525-527 | No two workers ever hold clashing locks at once. |
| `LockOrder.NoCyclicWait` | apps/billing/services.py:745-747 | No set of workers ever waits in a circle. |
| `LockOrder.SomeoneCanMove` | apps/schedule/services.py:187-193 | As long as workers are at work, one of them can take its next step. |
| `Calendar.OrdinalCountsDays` | apps/billing/services.py:880-884 | The day number grows by one from each date to the next. |
| `Calendar.MonthTable` | apps/billing/services.py:880-884 | The twelve month lengths, with the Gregorian leap rule. |
| `Calendar.MonthAfterLandsInNextMonth` | apps/billing/services.py:880-884 | A month later is a valid date of the next month with the same day, or its last day when that day does not exist. |
| `Calendar.MonthAfterGap` | apps/billing/services.py:880-884 | It lies 28 to 31 days ahead. |
| `Calendar.MonthAfterMonotone` | apps/billing/services.py:880-884 | A later date never gets an earlier month end. |
| `Calendar.WindowHoldsFourLessons` | apps/billing/services.py:887-900 | Every weekday occurs four or five times in the window. |
| `ScheduleModel.EffectiveIsShown` | apps/schedule/services.py:160-184 | The session checked at creation is the session shown in the week grid. |
| `ScheduleAnswers.ShownIs` | apps/schedule/services.py:345-409 | The line of a group in a week, field by field: regular without a mask, canceled by a cancellation, and by a reschedule at the mask's day, start, end, room and teacher where given and the group's own where empty, on that day of that week. |
| `ScheduleAnswers.LandingIs` | apps/schedule/services.py:160-184 | The session checked at creation has exactly those fields in the week of its date. |
| `ScheduleAnswers.CreationAnswers` | apps/schedule/services.py:88-135 | A mask is refused for a fault it has, or, a reschedule, for exactly those of room and teacher that another group uses at an overlapping time where it lands; otherwise it is stored. |
| `ScheduleAnswers.FieldsAreTaken` | apps/schedule/services.py:196-294 | The collision search over grid and masks finds a field exactly when some other group of that week uses that room or teacher then. |
| `ScheduleModel.WindowIsComplete` | apps/schedule/services.py:250-280 | The seven days searched miss no reschedule that lands on the date in question. |
| `ScheduleModel.CreateKeepsNoClashes` | apps/schedule/services.py:88-135 | An accepted mask leaves every shown week free of clashes. |
| `ScheduleModel.AcceptedIffClear` | apps/schedule/services.py:196-294 | A well-formed reschedule is accepted exactly when its landing clashes with nothing else shown that week. |
| `MaskRuns.CalendarNeverClashes` | apps/schedule/services.py:107-126 | In every interleaving of mask creations over a grid that meets the exclusion constraints, no two shown sessions overlap in a room or with a teacher. |
| `MaskRuns.CommitIsCreation` | apps/schedule/services.py:107-126 | Every commit of an interleaving stores exactly what the creation would store, run alone at that moment. |
| `MaskRuns.AloneIsCreation` | apps/schedule/services.py:107-126 | A creation that nobody disturbs does exactly what the one-step creation does. |
| `MaskRuns.UniquenessNeverFires` | apps/schedule/services.py:107-135 | No commit runs into a mask already stored for its group and date. |
| `ScheduleService.CollidedFields` | apps/schedule/services.py:283-294 | The loop names a field exactly when some occupant shares that resource. |
| `ScheduleService.GridCollisionFields` | apps/schedule/services.py:216-247 | The fields of the regular grid that stand in the way, over all groups. |
| `ScheduleService.MaskCollisionFields` | apps/schedule/services.py:250-280 | The fields of other reschedules that stand in the way, over all masks. |
| `ScheduleService.MaskStore.CreateScheduleMask` | apps/schedule/services.py:88-135 | A creation is refused or stores its mask exactly as `CreationAnswers` says, reports exactly that error, and keeps the calendar free of clashes. |
| `ScheduleService.BuildWeekGrid` | apps/schedule/services.py:297-328 | The week grid holds each visible group once, with the fields `ShownIs` gives it, sorted by day, start and group. |
| `ScheduleService.ShownWeekHasNoClash` | apps/schedule/services.py:297-419 | Two sessions of a built week that are not canceled never share a room or a teacher at one time. |
| `Otp.AtMostOneUnused` | apps/users/services.py:104-113 | In every run, an email has at most one unused code. |
| `Otp.FiveComparisonsPerCode` | apps/users/services.py:137-149 | In every run, a code is compared at most five times. |
| `Otp.LoginIff` | apps/users/services.py:125-169 | A login succeeds exactly when the newest unused code of the email is the one entered, not expired, with fewer than five wrong attempts, and the account is unknown or active. |
| `Otp.VerifyAnswers` | apps/users/services.py:125-169 | Every other answer and its effect: not found, expired, exhausted, a wrong code (that row alone gains an attempt), a blocked account. |
| `Otp.RequestAnswers` | apps/users/services.py:79-102 | A request is accepted exactly when the email is not locked and all its codes are at least a minute old; the wait a refusal names ends with that minute. |
| `Otp.PurgeAnswers` | apps/users/services.py:182-196 | A purge drops exactly unused codes past their expiry and used ones thirty days past it. |
| `Otp.CooldownHoldsIffPrompt` | apps/users/services.py:79-113 | Codes of one email are created a minute apart in all runs with stalls up to a bound, exactly when the bound is at most four minutes and one microsecond. |
| `Otp.StalledBreaksCooldown` | apps/users/services.py:182-196 | With any longer stall, a run that creates two codes within a minute. |
| `Otp.GuessesBounded` | apps/users/services.py:125-157 | Unless a request stalls longer than that, any window of T seconds sees at most 5 (T/60 + 2) comparisons for one email. |
| `OtpRaces.AtMostOneUnused` | apps/users/services.py:84-117 | Statement by statement, with stalls and crashes anywhere, the committed rows hold at most one unused code of an email. |
| `OtpRaces.FiveAnswersPerCode` | apps/users/services.py:130-151 | In every interleaving clients are told about at most five comparisons of one code. |
| `OtpRaces.LoginUsesUp` | apps/users/services.py:151-160 | A login that commits leaves no usable code of its email, whatever requests run beside it. |
| `OtpRaces.LoginsHadTheCode` | apps/users/services.py:130-160 | In every interleaving, every committed login entered exactly the code of its unused row, in time and with attempts left, and no code logged in twice. |
| `OtpRaces.CompareAnswers` | apps/users/services.py:139-152 | With the row locked, the right code in time goes on to the login, a wrong one to one more attempt, a dead code to neither. |
| `OtpRaces.MissAnswers` | apps/users/services.py:147-151 | A wrong guess adds one attempt to its row and nothing else. |
| `OtpRaces.PickAnswers` | apps/users/services.py:130-138 | A verification locks the newest candidate that is still unused. |
| `OtpRaces.CooldownAnswers` | apps/users/services.py:90-102 | Under the lock of the email a request goes on exactly when every code is at least a minute old. |
| `OtpRaces.RequestCommitAnswers` | apps/users/services.py:104-115 | It uses up the burned codes and stores one, good for five minutes. |
| `OtpRaces.CooldownHoldsIffPrompt` | apps/users/services.py:79-113 | The exact bound on stalls is the same for every interleaving of statements. |
| `OtpService.OtpStore.RequestOtp` | apps/users/services.py:79-113 | Accepted exactly as `RequestAnswers` says. After a success the email has exactly one unused code, the new one, good for five minutes from the clock reading, and codes of other emails are untouched; an error changes nothing. |
| `Otp.RequestEffect` | apps/users/services.py:79-113 | The same of the step. |
| `OtpService.OtpStore.VerifyOtp` | apps/users/services.py:125-169 | The answer and the effect of `VerifyAnswers`; after a success every code of the email is used and its account is active. |
| `OtpService.OtpStore.PurgeStaleOtpTokens` | apps/users/services.py:182-196 | Exactly the stale rows go, and both counts are right. |
| `Events.SeatsTakenIsExact` | apps/events/services.py:47-89 | In every interleaving of registrations, cancellations, confirmations and sweeps, the counter is the number of attendees of live registrations, and no event is overbooked. |
| `Events.RunIsSerial` | apps/events/services.py:92-110 | Every interleaving leaves the rows that some serial order of whole service calls leaves. |
| `Events.SeatsComeBackOnce` | apps/events/services.py:92-110 | However many workers cancel one registration, its seats come back once, and exactly the released registrations are canceled. |
| `Events.AcceptedIffSeatsLeft` | apps/events/services.py:47-70 | A registration is accepted exactly when counting the live registrations would find room for it. |
| `Events.RegisterAnswers` | apps/events/services.py:47-89 | A registration is confirmed if the event is free and waits for its payment otherwise; every refusal names the condition that fails, a full event with the seats left. |
| `Events.CancelAnswers` | apps/events/services.py:92-110 | A cancellation gives back the seats of a registration that is not canceled yet, and changes nothing otherwise. |
| `Events.ConfirmAnswers` | apps/events/admin.py:58-66 | A confirmation touches only a registration that is neither confirmed nor canceled. |
| `Events.AloneRegisters` | apps/events/services.py:47-89 | Statement by statement, a registration that nobody disturbs does what the one-step registration does. |
| `Events.AloneCancels` | apps/events/services.py:92-110 | The same for a cancellation. |
| `Events.SweepIsExact` | apps/events/services.py:113-125 | With no other worker in between, a sweep releases exactly the overdue registrations. |
| `Events.SweepMayCancelConfirmed` | apps/events/services.py:115-125 | A run in which a sweep cancels a registration confirmed after it was selected; the seat count stays exact. |
| `EventSweeps.SweepReleasesOverdue` | apps/events/services.py:113-125 | In every interleaving, what a sweep releases was unpaid and overdue when selected; at the release it is confirmed exactly when a confirmation took effect in between, and otherwise still unpaid and overdue. |
| `EventSweeps.UnconfirmedSweepIsRight` | apps/events/services.py:113-125 | If nobody confirms it in between, what a sweep releases is unpaid and overdue at that moment. |
| `EventService.EventStore.RegisterForEvent` | apps/events/services.py:39-89 | After a success there is one more registration of that many attendees, confirmed if the event is free and pending otherwise, the counter is higher by as many and within the capacity, and nothing else changed; each refusal names its condition and changes nothing. |
| `Events.RegisterEffect` | apps/events/services.py:47-89 | The same of the step. |
| `EventService.EventStore.CancelRegistration` | apps/events/services.py:92-110 | A registration that is not canceled becomes so and its seats come back; otherwise nothing changes, and the flag says which. |
| `EventService.EventStore.ReleaseExpiredPendingRegistrations` | apps/events/services.py:113-128 | The loop releases exactly the registrations unpaid for more than half an hour, and counts them. |
| `Money.RoundTripIff` | apps/billing/adapters.py:249-250 | Printing then reading an amount gives it back exactly when it keeps at most 28 significant digits and has at most a million digits. |
| `Money.FittingReadsIff` | apps/billing/adapters.py:226-238 | For any precision and range: text that loses nothing and stays in range is accepted exactly when it is a non-negative whole number of kopecks, and read as that number. |
| `Money.TextReads` | apps/billing/adapters.py:226-236 | Sign, digits and number of decimals are read off plain text. |
| `Money.NumbersAreText` | apps/billing/adapters.py:226-232 | Nothing but an optional sign, digits and one point is a number. |
| `Money.HalfEvenIsNearest` | apps/billing/adapters.py:227 | Digits beyond the precision are rounded to the nearest, ties to even. |
| `Money.ExactReadsIff` | apps/billing/adapters.py:226-238 | A non-negative whole number of kopecks is read as that number exactly when it loses nothing and stays in range. |
| `Money.SafeIn` | apps/billing/adapters.py:226-236 | For any precision, and any range a few digits beyond it, the exact numbers of digits and decimal places up to which no text is misread. |
| `Money.SafeDigitsAndPlaces` | apps/billing/adapters.py:226-236 | With the default context every text of at most so many digits and decimal places is read exactly or refused, exactly when these are at most 28 and 1000028. |
| `Money.PrintIsInjective` | apps/billing/adapters.py:249-250 | No two amounts print alike. |

## Left out

- NoCyclicWait: exclusive row locks on enrollments and token rows are not part of the order that is proved, because the code takes enrollment rows of different orders in one unordered update.
- NoOverbooking: a capacity lowered by the administrator below what is already taken is not repaired by any service, so it is claimed while the capacity is left alone; `OccupancyBelowPeak` covers changing ones.
- ChargedEqualsDebits: claimed for debits only, because a token refund reads the status unlocked; `StaysAccountedIff` gives the condition with refunds.
- PaidBackOnce: rests on a provider that honours its idempotence key; whether it takes a call is free.
- GuessesBounded: claimed for atomic calls whose requests stall at most four minutes and a microsecond; beyond that the cooldown itself fails, as `StalledBreaksCooldown` shows.
- Uniqueness of the external payment id: the gateway is taken to give each payment one transaction.
- Freezing subscriptions: a batch shift of one date, an easy member.
- Gateway HTTP, JSON bodies, retry classification and the background job queue.
- Views, serializers, permissions, throttling, captcha, forms, response caching, Telegram, seed data.
- Manual admin edits of subscriptions, attendance or event rows; only the event admin's confirm and cancel and, in `SeatBooking`, changes of a capacity are modelled.
- The `/me` feed, which ignores the new day of a day-moving mask.
- Exponents, spaces, underscores, infinities and not-a-number in amount texts; dates beyond the year 9999.
- The triggers that copy day and time columns: the copies are taken to be correct.
- The creation of a parent account at the first login, which only the atomic `Otp` models; `OtpRaces` follows the code rows.
- Random codes, email delivery, tokens of the login session, and text forms of UUIDs and dates.
