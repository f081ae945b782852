# Verified model of the ordering service

This project models the parts of the service whose correctness is hardest to see from the code,
and proves properties of them for all inputs, all runs and all interleavings:

- **The idempotency gate** in front of the one-shot upstream calls (`IdempotencyGate`, `GateThreads`):
  a table of entries with two levels of locks, expiry and a collector.
- **Coupon uses** (`CouponCounters`, `CouponTransactions`, `CouponBalance`, `CouponLifecycle`,
  `CouponStatements`): two counters changed by transactions that interleave statement by statement, the life
  of a use from reservation to cancellation, and both together.
- **The Mollie webhook** (`Webhook`): deliveries that fail, die, overlap and are retried.
- **Pricing** (`Money`, `Basket`, `Pricing`, `Checkout`): from the choices of a line to the amount
  charged and the lines sent to Mollie.
- **Opening hours** (`Slots`, `ReadyTime`, `Openings`): the slots on offer, the separately written
  validator, the lunch-only rule, the next opening and the comparison of clock texts.
- **Two concurrent structures** (`Broker` with `BrokerThreads`, `RateLimiter` with `RateLimits`).
- **Amounts as text** (`Amounts`).

Code that updates state in place is modelled by classes and loops, each method proved against a
specification function or relation. What threads, requests and deliveries may do to each other is
modelled by state machines whose steps are the pieces of code that nothing else can interrupt.
`dafny verify dfyconfig.toml` checks the whole project.

Conventions. Money is counted in integers: lines and totals in 1/10000 cent, rounded amounts in
cents, and what goes into a rounding as a fraction. Time is the wall clock of the restaurant: minutes
and the part of the minute that has passed. A call to the database, to Mollie or to another upstream
is a step that succeeds or fails as a parameter says.

## What the proofs found

Some statements one would expect, or that comments in the code make, do not hold as they stand. Each
has a run that shows it and a proof of when it does hold.

- `gcLocked` (internal/api/auth/idempotency.go:70-73) says a held entry is left alone. It releases the
  mutex of an entry before deleting the entry, so a thread can take it in between
  (`GateThreads.HeldEntryCanBeDeleted`): if and only if one was waiting for it at the test
  (`GateThreads.HeldBeforeDeletionIffWaiting`).
- `DecrementUsageAtomic` lowers two counters in one transaction so that they stay in step. Its per-user
  statement can run before, and its global one after, the commit of a redemption of the same user
  (`CouponTransactions.CountersCanPart`). They stay in step on every run whose give-backs begin with a use
  for them and for the give-backs under way (`CouponBalance.DisciplinedRunsStayInStep`), and one that
  begins otherwise can always be gone on from until they part (`CouponBalance.WhenGiveBackIsSafe`). As long as
  its books are conserved, the shop starts none of those (`CouponStatements.GiveBackIsDisciplined`), so its
  redemptions and give-backs act as single steps (`CouponStatements.CallsActAsSteps`).
- Redemption and give-back lock the two rows in opposite orders and can deadlock
  (`CouponTransactions.TransactionsCanCross`), in this one way (`CouponTransactions.DeadlockIffCrossed`).
- The guard on the transition into CANCELLED (internal/modules/order/application/service.go:104-108) does
  not make cancelling idempotent when two cancellations overlap, or when an order is cancelled while its
  payment is being created (`CouponLifecycle.OverlappingCancelsUndercount`,
  `CouponLifecycle.CancelDuringPaymentOwesTwice`, `CouponLifecycle.ConservedIffDisciplined`).
- A webhook delivery that cancels an order and then loses the give-back of its coupon is not made up for by
  a retry, and deliveries of different statuses do not all converge (`Webhook.RetriesConverge`).
- An order whose payment is reported dead and later paid stays cancelled and is announced as new
  (`Webhook.PaidAfterDead`); `Webhook.CancelledOrderIsAnnounced` says exactly when.
- The stored total of a cash order can be -0.10 (`Pricing.StoredTotalBounds`, `Pricing.FullCouponInCash`).
- A slot on offer can be refused: with a preparation time between 1 and 29 minutes, and with any longer one
  when the current seconds are dropped (`ReadyTime.WhenEveryOfferIsAccepted`, `ReadyTime.OfferedIsAccepted`).
- The next opening that is announced is not the earliest when a day has its dinner hours first
  (`Openings.DinnerIsMissed`, `Openings.NextOpeningAt`).
- A weekday slot that dinner hours serve in the first minutes of lunch, before lunch itself serves any, lacks
  the mark that lunch-only products are allowed (`ReadyTime.LunchMarkCanBeMissing`, `ReadyTime.LunchMarkAgrees`).
- Dropping an idle visitor can be told from the answers of the rate limiter if and only if a burst does not
  refill in the idle time (`RateLimits.WhenEvictionIsUnobservable`); those of the service all refill
  (`RateLimits.ServiceLimitersRefill`).
- Two overlapping calls of `Publish` may reach a subscriber in the other order (`BrokerThreads.SecondIsFaster`),
  and no others (`BrokerThreads.WhatSubscribersReceive`); while they overlap either order is possible
  (`BrokerThreads.EitherOrder`).

## Model

| member | source | states |
|---|---|---|
| IdempotencyGate.Entry.Hit | internal/api/auth/idempotency.go:88-96 | the response, if and only if there is one for this fingerprint that has not expired |
| IdempotencyGate.Gate.GcLocked | internal/api/auth/idempotency.go:70-86 | in whatever order the keys are visited, exactly the expired entries that nobody holds leave the table |
| IdempotencyGate.Gate.Find | internal/api/auth/idempotency.go:45-52 | the part of acquire under the table mutex, whoever else is inside: the collected table, with the key in it, no entry shared by two keys, and nobody's hold changed |
| IdempotencyGate.Gate.Acquire | internal/api/auth/idempotency.go:41-55 | the entry of the key, held, whatever other entries are held; its own mutex has to be free for the call to return |
| IdempotencyGate.Gate.Cache | internal/api/auth/idempotency.go:61-68 | the entry then holds this response, for this fingerprint, for one time-to-live |
| IdempotencyGate.Gate.Inside | internal/api/auth/otp.go:258-315 | a handler answers from the entry or calls the upstream once, and rewrites the entry on an upstream success only |
| IdempotencyGate.Gate.Handle | internal/api/auth/handler.go:64-111 | a whole section, while others are inside for other keys: reply and table are those of the specification, and no other entry is touched |
| IdempotencyGate.AgreeAfterSection | internal/api/auth/idempotency.go:70-96 | one section replies alike with and without collector, whatever held entries that spares, and keeps the two tables alike but for expired entries |
| IdempotencyGate.CollectorUnobservable | internal/api/auth/idempotency.go:44-96 | over every sequence of complete sections the gate replies, and calls the upstream, as one that never collects |
| IdempotencyGate.ResubmitGetsFirstAnswer | internal/api/auth/idempotency.go:8-20 | a second submit up to the expiry, whatever other keys did in between, gets the first answer and makes no upstream call |
| IdempotencyGate.AnsweredByItsOwn | internal/api/auth/idempotency.go:88-96 | a section makes no call if and only if its key has an unexpired response for its own fingerprint; then it is answered by that, otherwise by its own call |
| IdempotencyGate.TableAfterwards | internal/api/auth/idempotency.go:44-86 | what a section leaves of every entry, by its fields: only expired ones nobody holds go, only its own is rewritten, and that by a success only |
| IdempotencyGate.AnswersAreEarned | internal/api/auth/idempotency.go:8-20 | over every sequence of sections, collected or not: whoever is answered without a call gets the success of an earlier call for the same key and fingerprint, at most one time-to-live old |
| GateThreads.NextInv | internal/api/auth/idempotency.go:44-86 | every step of every thread keeps: references point to entries of their key, both kinds of mutex exclude, and a thread whose entry left the table or is about to was overtaken while waiting |
| GateThreads.NextOrphans | internal/api/auth/idempotency.go:44-55 | a thread can hold an entry that is no longer in the table only if the collector found it expired while that thread waited for its mutex |
| GateThreads.NextCondemned | internal/api/auth/idempotency.go:74-86 | the same for an entry that is about to be deleted |
| GateThreads.TwoInsideMeansOvertaken | internal/api/auth/idempotency.go:16-20 | over every run, two threads inside for one key hold different entries and one of them was overtaken by the collector |
| GateThreads.ExclusiveUnlessExpired | internal/api/auth/idempotency.go:8-20 | the section of a key is exclusive on every run on which no response of the key expires |
| GateThreads.NeverStuck | internal/api/auth/idempotency.go:41-59 | the two levels of locks do not deadlock: while anybody is inside, somebody inside can go on |
| GateThreads.EverybodyGetsOut | internal/api/auth/idempotency.go:41-59 | from any state of a run, however the threads inside are scheduled, they stop after a bounded number of steps, and exactly when all are outside |
| GateThreads.HeldBeforeDeletionIffWaiting | internal/api/auth/idempotency.go:70-86 | between the collector test of an entry and its deletion a thread can come to hold it if and only if, at the test, a thread was waiting for it |
| GateThreads.CachedSuccessIsReplayed | internal/api/auth/idempotency.go:61-96 | until expiry or the next success on the entry, whoever holds it and asks with the fingerprint is answered from it and calls no upstream |
| GateThreads.NoSecondUpstreamCall | internal/api/auth/idempotency.go:8-20 | after a success no run calls the upstream again for that key and fingerprint while nothing of the key expires |
| GateThreads.SuccessStartsReplay | internal/api/auth/idempotency.go:61-68 | caching a success leads to the state the two lemmas before start from |
| GateThreads.RepliesAreEarned | internal/api/auth/idempotency.go:88-96 | on every run, a thread at its entry either calls the upstream or leaves with the response of an earlier success for its own key and fingerprint, at most one time-to-live old |
| GateThreads.RepliesComeFromUpstream | internal/api/auth/otp.go:258-315 | on every run, a thread comes to leave with a response that an upstream gave for its key and fingerprint, or with none just after its own call failed |
| GateThreads.OutMeansAnswered | internal/api/auth/idempotency.go:57-59 | a thread gets out by releasing the entry it leaves with its reply, and in no other way |
| GateThreads.HeldEntryCanBeDeleted | internal/api/auth/idempotency.go:70-86 | a run on which an entry is deleted while a thread holds it and its unexpired success is lost |
| CouponCounters.Repository.RedeemAtomic | internal/modules/coupon/infrastructure/repository.go:92-164 | a call that fails changes neither counter; any other is accepted if and only if the coupon is open, below its cap, and the user has no row or is below the limit, and then counts once in both |
| CouponCounters.Repository.DecrementUsageAtomic | internal/modules/coupon/infrastructure/repository.go:166-198 | a call that fails changes neither counter; any other lowers by one each of the two that is positive |
| CouponCounters.RedeemKeeps | internal/modules/coupon/infrastructure/repository.go:98-164 | a redemption keeps both limits, the per-user one up to the unchecked first use, and the global count the sum of the per-user ones |
| CouponCounters.DecrementKeeps | internal/modules/coupon/infrastructure/repository.go:166-198 | a give-back keeps the limits, and keeps the balance if and only if the user has a use or nobody has |
| CouponCounters.RedeemThenDecrement | internal/modules/coupon/infrastructure/repository.go:166-198 | a give-back undoes a successful redemption in every count |
| CouponCounters.WhenRedeemed | internal/modules/coupon/infrastructure/repository.go:107-150 | which redemptions are accepted, by counters, caps and window; a refused one changes nothing |
| CouponCounters.WhatIsGivenBack | internal/modules/coupon/infrastructure/repository.go:174-190 | what a give-back does to each counter, one that is missing or at zero staying so |
| CouponCounters.WhichAttemptsSucceed | internal/modules/coupon/infrastructure/repository.go:98-164 | over every sequence of attempts on an unused coupon: one succeeds if and only if the coupon is open, fewer have succeeded than its cap, and fewer of its user than the limit or none |
| CouponTransactions.NextPending | internal/modules/coupon/infrastructure/repository.go:98-198 | what a transaction has written but not committed is always the committed counter moved by one, checked against its limit |
| CouponTransactions.NextInv | internal/modules/coupon/infrastructure/repository.go:98-198 | under statement-level interleaving and aborts anywhere, every step keeps the limits, no counter negative and the row locks exclusive |
| CouponTransactions.CommittedRedemptionIsAtomic | internal/modules/coupon/infrastructure/repository.go:92-97 | a committed redemption is one atomic, accepted redemption of the rows at its commit |
| CouponTransactions.CommittedGiveBackIsAtomic | internal/modules/coupon/infrastructure/repository.go:166-198 | a committed give-back is one atomic give-back if and only if no statement found nothing where something is by then |
| CouponTransactions.CommitKeepsBalance | internal/modules/coupon/infrastructure/repository.go:166-173 | a single commit keeps the two counters in step if and only if it is a redemption, or lowered both or neither; CouponBalance says which runs commit nothing else |
| CouponTransactions.EveryRunIsSerial | internal/modules/coupon/infrastructure/repository.go:98-198 | the counters after any run are those of the committed transactions one after another, within the limits; the others left no trace |
| CouponTransactions.CountersAreConserved | internal/modules/coupon/infrastructure/repository.go:98-198 | each counter is its start plus the redemptions that answered true minus the give-backs that lowered it |
| CouponTransactions.SuccessesAreCommits | internal/modules/coupon/infrastructure/repository.go:98-198 | on every run as many callers have been told that they succeeded as transactions have committed |
| CouponTransactions.OnlyOpenCouponsAreRedeemed | internal/modules/coupon/infrastructure/repository.go:107-118 | on every run, a redemption gets to its commit only after its first statement found the coupon active and inside its window |
| CouponTransactions.CountersCanPart | internal/modules/coupon/infrastructure/repository.go:166-173 | a run after which the global count is 0 and a user count is 1, each transaction having run to its end |
| CouponTransactions.BlockedIffWaiting | internal/modules/coupon/infrastructure/repository.go:98-198 | an unfinished transaction cannot take its next statement if and only if it waits for a row lock that another one holds |
| CouponTransactions.DeadlockIffCrossed | internal/modules/coupon/infrastructure/repository.go:98-198 | some transactions wait for each other if and only if a redemption that holds the coupon row and a give-back that holds the row of the same user want each other's |
| CouponTransactions.StuckMeansCrossed | internal/modules/coupon/infrastructure/repository.go:98-198 | if nobody who is unfinished can take another statement, two are crossed like that |
| CouponTransactions.TransactionsCanCross | internal/modules/coupon/infrastructure/repository.go:98-198 | a run that crosses two transactions |
| CouponBalance.NextSound | internal/modules/coupon/infrastructure/repository.go:98-198 | every step of a disciplined run keeps the counters in step, a use for every unfinished give-back, and every statement of those successful |
| CouponBalance.DisciplinedRunsStayInStep | internal/modules/coupon/infrastructure/repository.go:166-198 | over every run whose give-backs begin with more uses of the user counted than give-backs of it unfinished, the counters are in step, every give-back lowers both, and the rows are those of whole operations one after another |
| CouponBalance.WhenGiveBackIsSafe | internal/modules/coupon/infrastructure/repository.go:166-198 | on a usable coupon, all disciplined continuations of a give-back keep the counters in step if and only if it began like that |
| CouponLifecycle.ConservedIffDisciplined | internal/modules/order/application/service.go:69-122 | a step keeps every user count equal to holding orders plus uses in flight plus leaked uses if and only if it is disciplined |
| CouponLifecycle.GapAfterWrite | internal/modules/order/application/service.go:93-119 | an order update keeps the books of its user if and only if what it read of the order still holds where it matters |
| CouponLifecycle.GapAfterPaymentFailure | internal/api/graphql/resolver/order.go:493-513 | a failed payment leaves the books short by one for its user exactly when its order was not deleted, or was cancelled or gone before |
| CouponLifecycle.NextInv | internal/api/graphql/resolver/order.go:433-513 | a disciplined step keeps references, limits, the balance of the counters and conservation |
| CouponLifecycle.CountsCoverOrders | internal/api/graphql/resolver/order.go:433-513 | over every disciplined run a user count covers the orders holding the coupon and the reservations in flight, equals them if and only if nothing leaked, and the global count is the sum |
| CouponLifecycle.CountsAreExact | internal/modules/order/application/service.go:104-119 | when every give-back succeeds and no coupon order is swept, the count is exactly that |
| CouponLifecycle.WhatChangesAnOrder | internal/modules/order/application/service.go:69-122 | which steps remove an order or set its status and to what, the sweep that of test orders only; user, coupon and kind never change |
| CouponLifecycle.WhereOrdersComeFrom | internal/api/graphql/resolver/order.go:433-490 | an order that comes to be is new and pending, with the coupon if and only if its request has reserved a use |
| CouponLifecycle.OverlappingCancelsUndercount | internal/modules/order/application/service.go:104-119 | a run on which two overlapping cancellations give one use back twice |
| CouponLifecycle.CancelDuringPaymentOwesTwice | internal/api/graphql/resolver/order.go:493-513 | a run on which an order cancelled while its payment is created owes its use twice |
| CouponLifecycle.OrderService.CreateOrder | internal/api/graphql/resolver/order.go:433-513 | reserve, save, pay and undo, whatever fails: a reservation refused or failed leaves nothing, otherwise the shop is what those calls, as steps, lead to; on success exactly the new pending order is there, otherwise at most that one, unpaid and not deleted |
| CouponLifecycle.OrderService.UpdateOrder | internal/modules/order/application/service.go:69-122 | a status change: that order has that status and no other changes; the use is given back, or leaked if that fails, exactly on the transition of a coupon order into cancelled |
| CouponLifecycle.OrderService.CancelStaleTestOrders | internal/modules/order/infrastructure/repository.go:623-645 | exactly the stale test orders that are not cancelled or failed are cancelled, every other order stays as it was, and nothing is given back |
| CouponStatements.GiveBackIsDisciplined | internal/api/graphql/resolver/order.go:448-512 | every give-back of a conserved shop begins with a use for it and for those of its user that are under way |
| CouponStatements.NextKeeps | internal/modules/coupon/infrastructure/repository.go:98-198 | of the shop and its transactions together, a statement changes nothing the shop sees, a commit or abort is its one step, and both invariants are kept |
| CouponStatements.CallsActAsSteps | internal/modules/coupon/infrastructure/repository.go:92-173 | any disciplined run at statement level, aborts included, is a disciplined run of the shop in which each call is one step |
| CouponStatements.CountsCoverOrders | internal/api/graphql/resolver/order.go:433-513 | between any two statements the committed counts cover holding orders and reservations in flight, equal them if and only if nothing leaked, are in step and within the limits |
| Webhook.ProgressIsExpected | internal/modules/payment/interfaces/handler.go:77-178 | where a delivery can be after any number of steps, and what the system is then |
| Webhook.DeliveryEnds | internal/modules/payment/interfaces/handler.go:77-178 | a delivery that lives is over after seven steps, as if made in one go |
| Webhook.WhatMollieIsTold | internal/modules/payment/interfaces/handler.go:77-178 | the exact condition of every answer, by what each call said |
| Webhook.WhatProcessingDoes | internal/modules/payment/interfaces/handler.go:112-175 | what a processed delivery has done for paid, for the dead statuses and for the others: rows, e-mail, give-back and the exact events |
| Webhook.WhatFailureLeaves | internal/modules/payment/interfaces/handler.go:112-135 | one that is not processed has stored no status and announced nothing, and changed the order only by cancelling it |
| Webhook.OverlappingDeliveriesAreSerial | internal/modules/payment/infrastructure/repository.go:132-150 | however deliveries overlap, fail and die, whenever the lock is free the system is that of the finished deliveries one after another |
| Webhook.StepIsSafe | internal/modules/payment/interfaces/handler.go:102-175 | every step of a delivery keeps the safety statement of the next row, with what is known in the middle of one |
| Webhook.DeliveriesAreSafe | internal/modules/payment/interfaces/handler.go:102-175 | from an open payment, for every sequence of deliveries: stored paid means the paid logic ran, stored dead means cancelled, orderCreated only right after a stored change into paid, no status stored twice running, the coupon given back at most once |
| Webhook.UncommittedDeliveries | internal/modules/payment/interfaces/handler.go:112-127 | deliveries of whatever statuses that did not commit left the books alone or, exactly if one of them cancels, have cancelled the order, with its use given back unless one of them lost it |
| Webhook.RetriesConverge | internal/modules/payment/interfaces/handler.go:77-161 | any number of failed or dead deliveries, whatever Mollie answered to them, and then a flawless one lead to the books of the flawless one alone, if and only if none of them lost the give-back or cancelled an order that the last one does not |
| Webhook.RetriesOfOneStatusConverge | internal/modules/payment/interfaces/handler.go:112-161 | if all that saw a status saw that of the last one: if and only if none of them lost the give-back |
| Webhook.LaterDeliveriesAreIdle | internal/modules/payment/interfaces/handler.go:102-108 | a delivery of the stored status changes nothing at all |
| Webhook.CancelledIffSomeCancels | internal/modules/payment/interfaces/handler.go:150-161 | after every sequence of deliveries an order is cancelled if and only if one of them got as far as cancelling it |
| Webhook.DeliveryAnnounces | internal/modules/payment/interfaces/handler.go:115-149 | a delivery announces a new order if and only if it brings the news of paid, of an order that is no test, persists it and lives on |
| Webhook.CancelledOrderIsAnnounced | internal/modules/payment/interfaces/handler.go:115-149 | a delivery announces a cancelled order as new if and only if it announces and a delivery before it has cancelled the order |
| Webhook.PaidAfterDead | internal/modules/payment/interfaces/handler.go:115-149 | two deliveries on which nothing goes wrong that do so |
| Webhook.PaymentHandler.HandlePaymentFailed | internal/modules/payment/application/service.go:393-413 | cancels the order with the give-back its transition calls for, or changes nothing |
| Webhook.PaymentHandler.UpdatePaymentStatus | internal/modules/payment/interfaces/handler.go:77-178 | one delivery under the lock: state and answer are those of the specification |
| Money.RoundDiv | pkg/money/rounding.go:19 | rounding to an integer: none is closer, and of two equally close ones it is the one further from zero |
| Money.WithinIsNearest | pkg/money/rounding.go:19 | a remainder of at most half, and half only away from zero, makes the nearest integer |
| Money.Round | pkg/money/rounding.go:19 | the rounding computed with a division |
| Money.SnapLastDigit | pkg/money/rounding.go:21-38 | the branches on the last digit and the sign snap to the nearest multiple of ten, ties away from zero |
| Money.RoundToNearest10Cents | pkg/money/rounding.go:11-41 | first to cents, then to ten cents |
| Money.TiesGoAwayFromZero | pkg/money/rounding.go:19 | halfway between two integers, rounding goes away from zero |
| Money.SnapsTwice | pkg/money/rounding.go:11-41 | rounding twice: exactly the amounts from 4.5 to below 14.5 cents become ten |
| Money.Round10Fixes | pkg/money/rounding.go:17 | amounts on the grid stay; so the function is idempotent |
| Money.Round10Odd | pkg/money/rounding.go:21-38 | a negative amount snaps as its opposite does |
| Money.Round10Monotone | pkg/money/rounding.go:11-41 | it never changes the order of two amounts |
| Money.Round10Shift | pkg/money/rounding.go:11-41 | multiples of ten cents may be added before or after, among non-negative amounts |
| Money.Round10Near | pkg/money/rounding.go:11-41 | it moves an amount by at most 5.5 cents |
| Money.Round10NearCents | pkg/money/rounding.go:11-41 | it moves an amount of whole cents by at most 5 cents |
| Basket.TallyCounts | internal/api/graphql/resolver/order.go:188-230 | the counter maps say how often the request asks for each choice and each group |
| Basket.GroupIsSumOfChoices | internal/api/graphql/resolver/order.go:226-228 | the counter of a group is the sum of the counters of its choices |
| Basket.TallyIsWorthExtras | internal/api/graphql/resolver/order.go:252-260 | the counted choices, summed in any order, are worth the sum over the request, negative modifiers as nothing |
| Basket.CountSelections | internal/api/graphql/resolver/order.go:208-230 | succeeds exactly when every selection is positive, known, of the product and of its group; then both maps are the counts, and otherwise the error is true of the item |
| Basket.CheckGroups | internal/api/graphql/resolver/order.go:236-250 | passes exactly when every group of the product is asked for between its limits times the quantity |
| Basket.AddModifiers | internal/api/graphql/resolver/order.go:252-260 | whatever order the map is visited in, the unit price is the base and the worth of the counts |
| Basket.SingleChoice | internal/api/graphql/resolver/order.go:271-279 | the single choice is set exactly when one choice is counted, once |
| Basket.PriceLine | internal/api/graphql/resolver/order.go:177-292 | a line is made exactly when the item is acceptable, at base price plus extras, times the quantity; otherwise the error is true of the item and nothing checked before it is wrong |
| Basket.PriceItems | internal/api/graphql/resolver/order.go:177-293 | all items are priced exactly when all are acceptable, and the running total is the sum of the lines; otherwise the error is the first of the first item that is not |
| Basket.WishesOfItem | internal/api/graphql/resolver/order.go:188-230 | what an item asks for: its choice once, and every selection as often as it says |
| Basket.OneMoreCounts | internal/api/graphql/resolver/order.go:226-260 | a further wish adds its quantity to its choice and to its group, and its positive modifier times the quantity to the extras, and to nothing else |
| Basket.PriceOfPieces | internal/api/graphql/resolver/order.go:252-281 | the price of an item is its quantity times the price of its product with the extras |
| Basket.AcceptableMeansNothingWrong | internal/api/graphql/resolver/order.go:177-267 | an item is acceptable if and only if none of the errors is true of it |
| Basket.SubtotalIsWorth | internal/api/graphql/resolver/order.go:281-283 | the items together cost the sum of quantity times price with extras |
| Basket.LineSumIsSubtotal | internal/modules/order/infrastructure/repository.go:44-48 | what saving sums over the lines is what the items cost |
| Pricing.FeeByTheKilometre | internal/api/graphql/resolver/mappers.go:417-439 | nothing below 3 km, then a euro more with every kilometre |
| Pricing.CalculateDiscount | internal/modules/coupon/domain/coupon.go:147-168 | the discount of each kind of coupon, computed |
| Pricing.FixedTakesItsValue | internal/modules/coupon/domain/coupon.go:159-167 | a fixed coupon takes its value from an amount that has it, and else the amount; one of an unknown kind takes nothing |
| Pricing.PercentageTakesItsShare | internal/modules/coupon/domain/coupon.go:150-158 | a percentage takes its share in whole cents, the nearest, unless that is more than there is |
| Pricing.CouponTakesAtMostAll | internal/modules/coupon/domain/coupon.go:148-168 | a coupon takes between nothing and everything |
| Pricing.PercentageIsNear | internal/modules/coupon/domain/coupon.go:150-158 | up to a whole, a percentage discount is exact to half a cent |
| Pricing.TakeawayDiscount | internal/api/graphql/resolver/order.go:337-352 | the tenth of the discountable lines of a pickup order from 20 euros on, summed and snapped |
| Pricing.TakeawayIsForPickup | internal/api/graphql/resolver/order.go:337-352 | only for pickup and from twenty euros on, and then for every such order |
| Pricing.TakeawayIsATenth | internal/api/graphql/resolver/order.go:337-352 | it is a tenth of those lines to five and a half cents |
| Pricing.ClampDiscounts | internal/api/graphql/resolver/order.go:377-384 | the scaling of both discounts, computed with a quotient of sixteen places |
| Pricing.WhenClamped | internal/api/graphql/resolver/order.go:377-384 | discounts that do not exceed the total stay, and none is made where there was none |
| Pricing.ClampIsProportional | internal/api/graphql/resolver/order.go:379-382 | the clamped takeaway discount is its share of the total, to five and a half cents and the digits lost |
| Pricing.ClampIsFair | internal/api/graphql/resolver/order.go:377-384 | after the clamp both discounts are non-negative multiples of ten cents within the snapped total, and make it up exactly if they exceeded the total |
| Pricing.ComputeDiscounts | internal/api/graphql/resolver/order.go:337-384 | the discounts of a whole order, computed |
| Pricing.WhatIsTaken | internal/api/graphql/resolver/order.go:337-375 | before the clamp the coupon is taken on lines and fee together, and snapped |
| Pricing.DiscountsByKind | internal/api/graphql/resolver/order.go:337-384 | an order without a coupon has no coupon discount, one for delivery or below twenty euros no takeaway discount, and moderate ones are not clamped |
| Pricing.RawDiscountsAreModerate | internal/api/graphql/resolver/order.go:337-375 | before the clamp: non-negative multiples of ten cents, the takeaway one within the total |
| Pricing.DiscountsAreFair | internal/api/graphql/resolver/order.go:337-384 | the same for every basket, fee and coupon |
| Pricing.FairDiscountsAgainstTotal | internal/api/graphql/resolver/order.go:377-384 | the discounts never exceed a total on the ten-cent grid, and one of whole cents by at most five cents |
| Pricing.CheckoutOrdersAreSound | internal/api/graphql/resolver/order.go:414-429 | every order a checkout builds has fair discounts and a known transaction fee |
| Pricing.ComputeTotal | internal/modules/order/infrastructure/repository.go:43-70 | the stored total, computed in the branches of saving |
| Pricing.WhatIsDue | internal/modules/order/infrastructure/repository.go:43-64 | an order is due its lines and fee, less its discounts, and 30 cents if and only if it is paid online |
| Pricing.StoredTotalBounds | internal/modules/order/infrastructure/repository.go:43-70 | the stored total is a multiple of ten cents, at least minus ten, positive on online orders, and negative if and only if a cash order is discounted by 4.5 cents or more too much |
| Pricing.StoredTotalOnGrid | internal/modules/order/infrastructure/repository.go:66-69 | with all components on the grid the snap is a no-op and the total not negative |
| Pricing.FullCouponInCash | internal/modules/order/infrastructure/repository.go:43-70 | a coupon for everything on a cash delivery stores nothing, or minus ten cents exactly when the basket ends on five |
| Pricing.RoundingCorrectionLine | internal/modules/payment/application/service.go:509-537 | no line when the lines already sum to the total, otherwise the difference, typed by its sign |
| Pricing.CreateComponentLines | internal/modules/payment/application/service.go:76-138 | the lines of an order before the correction |
| Pricing.CreatePaymentLines | internal/modules/payment/application/service.go:140-150 | the lines sum exactly to the charged amount, and only a last one is ever added, a discount or surcharge by its sign |
| Pricing.ComponentLineSum | internal/modules/payment/application/service.go:94-138 | the lines sum to products plus fee minus discounts plus transaction fee, absent lines included |
| Pricing.ProductsFirst | internal/modules/payment/application/service.go:76-138 | the products come first, one line each to the nearest cent, and then one line for each other component there is |
| Pricing.ComponentsByKind | internal/modules/payment/application/service.go:94-138 | the lines say what they are for: the fee is shipping, the discounts are discounts, the transaction fee is a surcharge |
| Pricing.CorrectionIsSmall | internal/modules/payment/application/service.go:140-150 | the correction is at most five cents for lines of whole cents, else 5.5 cents and half a cent for each product line |
| Checkout.PriceRequest | internal/api/graphql/resolver/order.go:93-298 | the product lines exactly of the requests whose items can be served, lunch-only products included; otherwise the first grounds to refuse them |
| Checkout.ServableMeansNoGrounds | internal/api/graphql/resolver/order.go:93-375 | a request can be served if and only if none of the ten refusals is true of it |
| Checkout.PlaceOrder | internal/api/graphql/resolver/order.go:93-384 | end to end: exactly the requests with no grounds to refuse them are accepted, others refused on the first grounds there are; every line is quantity times price with extras, the fee is by the kilometre, the surcharge by payment, the discounts those of lines, fee and coupon and fair, the charge what saving stores, and the lines sent to Mollie those of the order, summing to it |
| Slots.RoundUp | internal/modules/restaurant/domain/slots.go:227-235 | the next quarter of an hour |
| Slots.StartIsRight | internal/modules/restaurant/domain/slots.go:68-76 | the rounded start admits the same quarters as the unrounded one |
| Slots.SchedulesAgree | internal/api/graphql/resolver/mappers.go:520-549 | generator and validator resolve the same schedule whenever the hours can be read, and otherwise nothing is offered |
| Slots.SlotsOfInterval | internal/modules/restaurant/domain/slots.go:59-89 | exactly the unseen quarters that the interval serves, in order |
| Slots.AvailableSlotsToday | internal/modules/restaurant/domain/slots.go:20-92 | exactly the quarters some interval serves, each once, marked for lunch exactly when lunch serves them on a weekday; in order, what only dinner serves coming last |
| Slots.OfferedByTheWeek | internal/modules/restaurant/domain/slots.go:20-89 | without an override, by the hours of the weekday: exactly the quarters from opening and from now, plus preparation (30 minutes if not set), to closing |
| Slots.OfferedByOverride | internal/modules/restaurant/domain/restaurant.go:88-112 | an override replaces the hours of its date: nothing when closed or unreadable, otherwise the quarters of its own hours |
| Slots.OfferedWithoutHours | internal/modules/restaurant/domain/slots.go:20-47 | nothing is offered when neither kind of hours is set or the ordering hours cannot be read |
| Slots.MarkedByTheWeek | internal/modules/restaurant/domain/slots.go:74-88 | the mark by date and hours: Monday to Friday, and lunch serves the quarter |
| ReadyTime.IsSlotInAllowedInterval | internal/api/graphql/resolver/mappers.go:551-571 | a minute is allowed exactly when a well-written interval has it, from half an hour after opening to closing |
| ReadyTime.ValidatePreferredReadyTime | internal/api/graphql/resolver/mappers.go:479-518 | passes exactly the aligned times of the day that are far enough ahead and allowed; without a time, exactly when open |
| ReadyTime.AcceptedByTheWeek | internal/api/graphql/resolver/mappers.go:479-571 | without an override, by the hours of the weekday: which times are accepted, to the second |
| ReadyTime.AcceptedByOverride | internal/api/graphql/resolver/mappers.go:520-549 | an override replaces the hours of its date, whatever the weekly ones |
| ReadyTime.OfferedIsAccepted | internal/api/graphql/resolver/mappers.go:494-515 | with preparation of 30 minutes or more, or none set, an offered slot is accepted if and only if it is not the one that dropped seconds put too close |
| ReadyTime.AcceptedIsOffered | internal/modules/restaurant/domain/slots.go:49-80 | with preparation of exactly 30 minutes every accepted time is an offered slot |
| ReadyTime.WhenEveryOfferIsAccepted | internal/api/graphql/resolver/mappers.go:494-515 | for all schedules, on the minute: no offer is refused if and only if preparation is not between 1 and 29 |
| ReadyTime.WhenOfferedAndAcceptedCoincide | internal/api/graphql/resolver/mappers.go:479-571 | offered and accepted coincide for all schedules if and only if preparation is 30, or more than 1425 |
| ReadyTime.LunchMarkAgrees | internal/modules/restaurant/domain/slots.go:124-163 | the mark of a slot and the rule for instants agree if and only if it is not a weekday slot dinner serves in the first minutes of lunch |
| ReadyTime.LunchRuleByHours | internal/modules/restaurant/domain/slots.go:124-163 | the rule, by date and hours: Monday to Friday, from the opening of the first interval to its closing |
| ReadyTime.LunchMarkCanBeMissing | internal/modules/restaurant/domain/slots.go:74-88 | hours for which 12:00 is offered without the mark although the rule allows it |
| ReadyTime.LunchMarksAgree | internal/modules/restaurant/domain/slots.go:74-88 | so they agree when lunch ends before dinner serves or dinner opens no earlier than lunch |
| Openings.NextOpeningOn | internal/modules/restaurant/domain/slots.go:183-198 | the first listed opening of a day that is ahead, the earliest one unless dinner opens first |
| Openings.NextOpeningAt | internal/modules/restaurant/domain/slots.go:165-202 | an opening of the next seven days, none exactly when there is none, and the earliest if and only if its day does not have dinner first |
| Openings.OpensByHours | internal/modules/restaurant/domain/slots.go:165-202 | when a day opens, by the hours of its weekday or its override: at its own opening and at that of dinner |
| Openings.DinnerIsMissed | internal/modules/restaurant/domain/slots.go:183-198 | hours for which 17:00 is the next opening although the shop opens at 11:00 |
| Openings.TextOrder | internal/modules/restaurant/domain/restaurant.go:117-135 | HH:MM texts compare as the minutes they stand for |
| Openings.WithinMeansBetween | internal/modules/restaurant/domain/restaurant.go:114-135 | with such texts, open means from opening until before closing |
| Openings.UnpaddedNeverOpens | internal/modules/restaurant/domain/restaurant.go:124-126 | an opening hour from 3 to 9 written without its zero is never reached |
| Broker.PubSub.Subscribe | pkg/pubsub/pubsub.go:17-23 | a new open channel at the end of its topic, every channel still listed once |
| Broker.PubSub.Publish | pkg/pubsub/pubsub.go:25-39 | every subscriber of the topic with room has the message, and nobody sends on a closed channel |
| Broker.PubSub.Unsubscribe | pkg/pubsub/pubsub.go:41-52 | a listed channel is closed and taken off, the others keep their order; an unlisted one is left alone |
| Broker.PubSub.Shutdown | pkg/pubsub/pubsub.go:54-63 | every listed channel is closed, once, and no topic is left |
| BrokerThreads.NextInv | pkg/pubsub/pubsub.go:17-63 | every step of every thread keeps lists sound, channels sound, publishers on the tail of their list and nobody skipped |
| BrokerThreads.BrokerIsSafe | pkg/pubsub/pubsub.go:17-63 | in any interleaving every channel is either listed, at one place, or closed, once; nobody sends on a closed one, and subscribers receive what the next row says |
| BrokerThreads.WhatSubscribersReceive | pkg/pubsub/pubsub.go:17-39 | messages of the topic published since subscribing, none twice, in publishing order but for overlapping calls |
| BrokerThreads.QuietMeansAllTried | pkg/pubsub/pubsub.go:33-38 | when nobody publishes, a listed subscriber has been tried by exactly the messages of its topic since it subscribed |
| BrokerThreads.WhatSendDelivers | pkg/pubsub/pubsub.go:33-38 | a send puts its message behind what the channel has delivered or holds, or drops it when there is no room; no other channel notices |
| BrokerThreads.DeliveredIsKept | pkg/pubsub/pubsub.go:17-63 | whatever happens later, a message that made it into a channel is received from it after those before it, or still waits there |
| BrokerThreads.OrderedAcrossQuiet | pkg/pubsub/pubsub.go:25-39 | every subscriber receives what was published before a moment at which nobody was publishing ahead of what was published after it |
| BrokerThreads.PublishersLeave | pkg/pubsub/pubsub.go:26-39 | no publisher waits for anybody: those at work stop after the sends they have before them, exactly when none is left and the write lock is free |
| BrokerThreads.TwoEnter | pkg/pubsub/pubsub.go:26-33 | a run to the state the next row starts from, with two calls of Publish at work |
| BrokerThreads.EitherOrder | pkg/pubsub/pubsub.go:26-38 | whenever two publishers of any run have a channel before them, the run can go on so that its subscriber receives their messages next, in either order |
| BrokerThreads.SecondIsFaster | pkg/pubsub/pubsub.go:26-38 | a run on which two overlapping calls reach a subscriber in the other order |
| RateLimiter.Limiter.Allow | internal/shared/middleware/ratelimit.go:91-96 | a call is allowed when there is a token, which it takes; a denied one changes nothing |
| RateLimiter.Registry.GetVisitor | internal/shared/middleware/ratelimit.go:38-51 | the limiter of the visitor, full when new, and the time of the visit noted for that visitor only |
| RateLimiter.Registry.AllowKey | internal/shared/middleware/ratelimit.go:91-96 | one call on the limiter of the key; visitors and buckets of all other keys stay, and no two keys come to share one |
| RateLimiter.Registry.SweepIdle | internal/shared/middleware/ratelimit.go:59-66 | exactly the visitors idle for more than three minutes go |
| RateLimits.WhenIdleMeansFull | internal/shared/middleware/ratelimit.go:53-66 | every idle visitor has a full bucket if and only if the burst refills in the idle time less the delay |
| RateLimits.ServiceLimitersRefill | cmd/app/main.go:384-435 | true of all five limiters of the service, with a delay of up to two minutes |
| RateLimits.WhenEvictionShows | internal/shared/middleware/ratelimit.go:53-66 | otherwise, and only otherwise, a burst of calls can tell a dropped visitor from a kept one |
| RateLimits.TokensAreCalls | internal/shared/middleware/ratelimit.go:91-96 | so many calls at once are all allowed if and only if there are that many tokens |
| RateLimits.FullAllowsTheBurst | internal/shared/middleware/ratelimit.go:38-51 | a new limiter allows a burst at once, and no more |
| RateLimits.TokensComeAtTheRate | internal/shared/middleware/ratelimit.go:91-96 | a call is allowed from one token on and takes it, one that is denied costs nothing, and tokens come in at the rate up to the burst |
| RateLimits.NextInv | internal/shared/middleware/ratelimit.go:38-71 | every step keeps each limiter level with the one of a registry that drops nobody |
| RateLimits.EvictionIsUnobservable | internal/shared/middleware/ratelimit.go:38-71 | over every run the answers are those of a registry that drops nobody |
| RateLimits.WhenEvictionIsUnobservable | internal/shared/middleware/ratelimit.go:38-71 | the answers never tell a registry that drops idle visitors from one that does not, on any run, if and only if an idle visitor always has a full bucket |
| RateLimits.AdmissionsAreBounded | internal/shared/middleware/ratelimit.go:78-96 | over every run and from any time on, a visitor is allowed its burst and the tokens that came in since, at most |
| Amounts.FormatDecimal | pkg/utils/utils.go:130-160 | the text of the amount rounded to two decimals, separated from the left as the loop does |
| Amounts.GroupFirstIsGroup | pkg/utils/utils.go:143-149 | separating from the left by what is to come is grouping by three from the right |
| Amounts.GroupShape | pkg/utils/utils.go:141-149 | separators stand exactly at every fourth place from the right, and everything else is a digit |
| Amounts.GroupStartsWithDigit | pkg/utils/utils.go:141-149 | a grouped number starts with a digit |
| Amounts.FormatFrames | pkg/utils/utils.go:130-160 | a sign exactly when the amount is negative, and a comma before two decimals |
| Amounts.FormatReadsBack | pkg/utils/utils.go:130-160 | every amount reads back from its text |

## Left out

- HTTP, GraphQL, SQL text, authentication, e-mail, push, PDF and image handling: a step that succeeds or fails.
- JSON parsing of hours and overrides; clock texts start as parsed values, with the two parsers told apart by what they accept. Only `Openings` has the texts themselves.
- Time zones and daylight saving: days of 24 hours. On the two days a year that differ, slots and openings are not covered.
- Concurrent writes of one entry by threads that do not hold it, map iteration under writes, and memory visibility: Go's mutexes are taken to work.
- The hash that `WithPaymentLock` derives its lock from: two payments that share it only wait for each other.
- `IncrementUsedCount`, the admin change of a payment status, edits of coupons and of their codes, and the unique index that allows one active coupon order for each user: no modelled flow needs them, and the last only removes runs.
- `Status`, `Validate`, `NormalizeCode` and `GenerateCode` of coupons: branches on the fields of one row.
- CouponLifecycle.CountsCoverOrders: assumes disciplined runs, because without them it is false; `ConservedIffDisciplined` says that nothing less will do for a step.
- CouponTransactions.EveryRunIsSerial: locks are row locks of read-committed transactions; a statement that waited reads the row again, which is modelled as running once the lock is free.
- Webhook.DeliveriesAreSafe: runs of webhook deliveries only; cancellations by staff at the same time are in `CouponLifecycle`.
- Webhook.RetriesConverge: compares payment, order and counters; confirmation e-mails may be sent again by retries, and are not compared.
- Checkout.PlaceOrder: takes the answers of the address service and of coupon validation as parameters; a call to a service that fails, VAT, translations and the cash amount are not part of this model.
- CouponBalance.WhenGiveBackIsSafe: on a coupon that nobody may use at all (a limit of zero) a give-back with nothing to give back may find no row to lower, and then parts nothing; the converse is stated for coupons that can be used.
- `HandlePaymentPaid` beyond its outcome: loading products and the user, and the confirmation e-mail, are one call that succeeds or fails.
- RateLimits.EvictionIsUnobservable: bounds the time between looking a limiter up and asking it, as a parameter; the token bucket is the equation of golang.org/x/time/rate over the reals, without its floating-point rounding.
- BrokerThreads.BrokerIsSafe: a receiver takes from the buffer only; handing a message directly to a waiting receiver is putting and taking at once.
- ReadyTime.OfferedIsAccepted: for hours written as HH:MM, as the stricter parser wants them; hours only the looser one reads are offered and never accepted.
- Widths of integers: minutes, quantities and cents are unbounded integers, the source's are 64 bits.
- `ReviewSlotsToday` (eight quarters in a row for review accounts, whatever the hours), product sorting, notification texts and translations: nothing there depends on what is proved here.
- The answer of a commit that gets lost although the commit took effect, and a stored order line without product details (internal/api/graphql/resolver/order.go:471-474), which the code expects not to happen.
