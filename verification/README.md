# Printvendo: a verified model of its domain rules

Printvendo runs self-service print kiosks: students upload files, pay from a wallet or through a
payment gateway, and a machine in a shop prints them. This project models the rules that keep its
money, its print queues and its shops consistent, and proves them in Dafny over every input, every
run and every reachable state.

Each table of the database is a sequence (a row's index is its id) or a map. Each operation is a
function from the tables as they were to the tables as they become, or to the refusal the service
raises; a refused request leaves the tables alone, because the request's transaction is rolled back
(`app/api/deps.py:81-92`). Where the service updates objects or tables step by step, a class does the
same with fields, methods and loops, and every method's contract ties its effect to those functions.
The lemmas are then about the functions, so they hold of the methods too; where lemmas are about finer
steps than a method takes, a lemma says that the method is those steps
(`RateLimitMiddleware.CallIsItsSteps`, `RateLimitMiddleware.CallsAreAFlow`, `Alerts.WholeSweepsTellOnce`).

Times are microsecond ticks (`int`), seconds as exact reals in the rate limiter. Money is whole paise
(`int`), and exact rupees (`real`) before rounding. Where one operation reads a clock twice, or a
query may answer in more than one way, both are parameters and the proofs hold for every value of them.

| module | about |
|---|---|
| `Money`, `KioskPricing`, `PrintQuotes` | rounding, what a sheet costs, what an order costs |
| `OrderPlacing` | which orders are accepted, and what they ask for |
| `OrderBook`, `OrderService` | orders, print tasks, payments and wallets: the operations, and the class that runs them |
| `OrderRuns`, `OrderPrints`, `OrderTruth`, `OrderBelief`, `OrderSharing`, `OrderLines`, `OrderLeases` | the life of an order; one task per line; when its state is the truth about its prints, and what holds when orders share files; how long a machine may go quiet |
| `OrderMoney`, `OrderSales`, `OrderCases` | conservation of money; one sale step by step; histories, built of such steps from an empty book, in which a promise fails |
| `SubscriptionQuotes`, `SubscriptionTable`, `SubscriptionRuns` | what a subscription costs; terms, trials and grace; no day sold twice |
| `RateLimit`, `RateLimitMiddleware` | two counters for one rule; what every interleaving of requests lets through |
| `KioskStages`, `DeviceCommands` | a kiosk's stages and the doors into them; commands to its machine |
| `Earnings` | one total, split by kiosk and by day |
| `WalletMigration`, `MigrationRun` | collapsing legacy accounts; carrying their money |
| `Sessions`, `Alerts`, `PaymentKeys` | token families; one alert per condition; one approval per change |

## Where the code and its own words part company

The model follows the code. Each of these is a proved lemma, with the exact condition where there is one.

- "An order follows its prints" holds, whichever way it was paid, as long as an order is paid while no
  order in flight shares its files and is confirmed while it sees only its own prints. Two orders over
  one file in flight at once break it: the report of the first one's print reaches the one paid last, and
  the first stays PAID with all its pages printed (`OrderCases.TheOtherOrderHears`, and exactly when:
  `OrderSharing.ReportKeepsTheTruthExactlyWhen`, and for the sweep of lost prints
  `OrderSharing.SweepKeepsTheTruthExactlyWhen`). Confirming an old, partly failed order after the same
  file was bought again sends it back to DISPATCHED (`OrderCases.ConfirmingAfterAReprintMisleads`,
  `OrderBelief.ConfirmTellsTheTruthExactlyWhen`).
- A blocked print is said to run once the tray is filled (`app/modules/printing/enqueue.py:71`,
  `app/modules/orders/service.py:309`, `app/modules/printing/tasks.py:326`). No operation takes a task out
  of BLOCKED, so its order never lands and can end only in a refund (`OrderSharing.ABlockedOrderNeverLands`).
- `payment_for_order` is described as the payment that settled the order; it is the newest row naming it.
  With a second checkout open, an order some of whose money went back can be confirmed as printed
  (`OrderMoney.GuardMissesExactlyWhen`, `OrderCases.ConfirmingAfterAPartialRefund`).
- "Money that has arrived cannot be un-arrived by a later failure event": the guard asks only for
  CAPTURED, so a failure reported after a refund takes the row out of the settled ones
  (`OrderMoney.LateFailureUnsettlesExactlyWhen`, and at an order still to be printed,
  `OrderCases.ALateFailureUnsettles`).
- `settle_paid_order` says it returns an empty list for an expired order, whose money "is still recorded";
  `mark_paid` raises instead, and the capture is rolled back with it. A capture is kept exactly when the
  order still awaits payment and is not stale, its row is not captured yet and the gateway's id is no
  other row's (`OrderCases.CaptureKeptExactlyWhen`); an expired order never has money recorded, in any run
  (`OrderCases.ExpiredOrdersAreNeverPaid`, `OrderCases.ALateCaptureIsRolledBack`).
- The two rate-limit stores answer alike only for a key always used with one limit; an address is used
  with two (`RateLimit.StoresDifferExactlyWhen`, `RateLimit.MixedLimitsMakeStoresDisagree`).
- No day is sold twice provided the two clock readings inside one activation are at most the grace period
  apart, and not otherwise (`SubscriptionRuns.PromptnessIsExact`, and over whole histories
  `SubscriptionRuns.NoTimeSoldTwiceExactlyWithinGrace`).
- A replayed refresh token kills its family in the session that meets it; that session raises, so nothing
  is kept (`Sessions.ReplayKillsOnlyInItsSession`, `Sessions.TheOtherTokenSurvivesAReplay`, and from the
  sign-in on `Sessions.AThiefKeepsTheFamily`).
- A recovering printer can reopen a shop a person closed: the closing it undoes is the machine's own
  exactly when nobody moved the shop into MAINTENANCE by hand while the machine held its claim on it
  (`KioskStages.RecoveryUndoesItsOwnClosingExactlyWhen`, `KioskStages.RecoveryCanUndoAPersonsClosing`); a
  guard on the claim in `move_to` would see that coming. `reconcile_billing_state` has no caller in `app/`;
  the runs include it all the same.
- Carrying balances again is harmless only while every wallet still holds what was carried: after a student
  has spent, a second pass puts the spending back (`MigrationRun.WritesNothingExactlyWhen`,
  `MigrationRun.SpendingComesBack`).
- Merging balances with `as_money(a + b)` makes a paisa for each debt ending in half a paisa merged into
  money that covers it, and loses one for each balance ending so merged into a debt it does not clear;
  nothing is lost exactly when those are as many (`WalletMigration.MoneyIsPlannedExactly`,
  `WalletMigration.NoPaisaIsLostExactlyWhen`). `plan` takes any list, but the program never hands it a debt:
  it reads only wallets with money left (`app/migration/legacy.py:59`), and those lose nothing
  (`WalletMigration.NoPaisaIsLost`).
- The day series cannot be drawn if a counted payment was never given a capture time
  (`Earnings.UndatedExactlyWhenNeverCaptured`).

## Model

| member | source | states |
|---|---|---|
| `Money.AsPaise` | app/core/money.py:13-19 | rounding to two places leaves one answer: the nearest paisa, halves away from zero |
| `Money.PaiseRoundTrip` | app/core/money.py:22-29 | paise to rupees and back is the identity |
| `Money.RoundingTwiceIsRoundingOnce` | app/core/money.py:13-19 | rounding is idempotent |
| `Money.RoundingIsMonotone` | app/core/money.py:13-19 | a larger sum never rounds to a smaller one |
| `Money.WholePaiseTranslate` | app/core/money.py:13-19 | for sums not below zero, adding whole paise commutes with rounding |
| `Money.WholePaiseTranslateExactlyWhen` | app/core/money.py:13-19 | for all sums, adding whole paise commutes with rounding if and only if no tie is carried across zero |
| `Money.TranslatingDrifts` | app/core/money.py:13-19 | for all sums, adding whole paise before rounding makes a paisa when a tie is carried up across zero, takes one when a tie is carried down, and otherwise changes nothing |
| `Money.SumMoney` | app/core/money.py:32-37 | the running total, rounded once, is the rounded exact total |
| `Money.SummingWholePaiseIsExact` | app/core/money.py:32-37 | summing whole paise loses nothing |
| `KioskPricing.CheckWithinBand` | app/modules/kiosks/pricing.py:118-131 | refuses exactly the prices outside the band or below zero |
| `KioskPricing.Kiosk.SetPricing` | app/modules/kiosks/pricing.py:134-196 | accepts exactly the requests that set something, sit in the band and leave single <= double <= 2 x single; a refusal writes nothing |
| `KioskPricing.PricesStaySane` | app/modules/kiosks/pricing.py:134-196 | over every run of price changes single <= double <= 2 x single stays true for both colours |
| `KioskPricing.SuppliedAreInBand` | app/modules/kiosks/pricing.py:118-131 | every price that gets written was inside the band of its request |
| `KioskPricing.ChangesWriteWhatTheyName` | app/modules/kiosks/pricing.py:134-196 | an accepted change sets each price it names to the nearest paisa and leaves every other as it was |
| `PrintQuotes.EverySideIsOnASheet` | app/modules/printing/options.py:180-208 | two-sided and one-sided sheets together carry every impression once, each copy rounding by itself |
| `PrintQuotes.WorkIsWhatWasAsked` | app/modules/orders/quotes.py:64-90 | impressions are pages times copies; the sheets are copies times the pages, or half of them rounded up; and the amount is copies times what one copy's full sheets and odd page cost at the kiosk's own rates, or the defaults |
| `PrintQuotes.CopiesAddUp` | app/modules/printing/options.py:188-199 | pages and both kinds of sheet for m + n copies are those for m and for n added |
| `PrintQuotes.PricesAddUp` | app/modules/orders/quotes.py:64-90 | so is the price |
| `PrintQuotes.OneCopy` | app/modules/printing/options.py:188-199 | a copy on both sides leaves at most one side blank, one on one side takes a sheet a page; a page costs the single price and two on one sheet the double price |
| `PrintQuotes.DuplexSitsBetween` | app/modules/orders/quotes.py:64-90 | at sane prices a duplex quote lies between the single rate for its sheets and the single-sided quote, for any pages and copies |
| `PrintQuotes.FeeIsCapped` | app/modules/orders/quotes.py:36-38 | the fee is the paisa nearest to two per cent, halves upward, until 99.75 rupees and two rupees from there |
| `PrintQuotes.TotalsAreExact` | app/modules/orders/quotes.py:102-122 | total is the sum of the lines plus the fee, exactly; a wallet order has no fee, and any other that fee |
| `OrderPlacing.AcceptedExactlyWhen` | app/modules/orders/service.py:117-224 | an order is accepted if and only if the shop is open, takes the means and offers the colour asked for, there is something to print, every document is the student's own and printable as asked, and the paper for its pages and copies is there |
| `OrderPlacing.PlacedOrdersArePricedExactly` | app/modules/orders/service.py:156-211 | an accepted order is one new row: each line keeps the document, settings and pages asked for at the amount they cost, the total is their exact sum plus the fee of its means, and it awaits payment for twenty minutes |
| `OrderService.Orders.PlaceOrder` | app/modules/orders/service.py:117-211 | makes every check in order and appends exactly one awaiting order frozen at its quote, or refuses and changes nothing |
| `OrderService.Orders.PriceLines` | app/modules/orders/service.py:157-167 | the loop prices every line or stops at the first request that is wrong |
| `OrderService.Orders.MarkPaid` | app/modules/orders/service.py:294-340 | the order turns PAID and the loop queues one task per document line, or nothing happens |
| `OrderService.Orders.Debit` | app/modules/wallet/ledger.py:62-186 | takes the sum and writes one entry, or refuses an overdraft or a repeated reference and moves nothing |
| `OrderService.Orders.PayWithWallet` | app/modules/orders/service.py:247-291 | debit, payment row, PAID and tasks together or none of them; the second payability check cannot refuse |
| `OrderService.Orders.RecordCapture` | app/modules/payments/charges.py:364-398 | a capture and the commit it settles into happen together or not at all, and a gateway id is recorded once |
| `OrderService.Orders.ApplyPaymentRefund` | app/modules/orders/refunds.py:25-61 | the order is REFUNDED afterwards if and only if it was, or everything paid for it has gone back; a partial refund changes no row, and no refund touches another order or what this one was placed and paid for |
| `OrderService.Orders.DeriveFromPrints` | app/modules/orders/service.py:430-462 | the scan over the tasks sets the state derived from those the order sees |
| `OrderService.Orders.OwnerOfPrint` | app/modules/orders/service.py:405-415 | picks an order in flight over that document at that kiosk, paid last, or none if there is none |
| `OrderService.Orders.RefreshOrderState` | app/modules/orders/service.py:374-423 | re-derives the picked order and touches no other |
| `OrderService.Orders.ReportTask` | app/modules/printing/tasks.py:83-157 | a report moves only a task in hand, and its order hears of it |
| `OrderService.Orders.FailExpiredTasks` | app/modules/printing/claims.py:139-172 | fails exactly the tasks whose lease ran out |
| `OrderService.Orders.SettleLostTasks` | app/jobs/tasks.py:76-101 | fails them all, then refreshes an owner for each, every pick made from the orders as the picks before left them |
| `OrderService.Orders.ConfirmFailedPrints` | app/modules/printing/tasks.py:236-264 | flips exactly the failed tasks the order sees, and says whether there were any |
| `OrderService.Orders.ConfirmOrderPrinted` | app/modules/orders/service.py:465-510 | confirms and re-derives, or refuses for one of the three reasons and changes nothing |
| `OrderService.Orders.ExpireStaleOrders` | app/modules/orders/service.py:516-538 | expires exactly the awaiting orders past their time |
| `OrderRuns.StepMoves` | app/modules/orders/service.py:230-538 | every operation moves each order by at most one legal step, keeps what was agreed, and keeps the tables consistent |
| `OrderRuns.NoOrderGoesBack` | app/modules/orders/service.py:230-538 | between any two instants of any run: EXPIRED comes only from AWAITING_PAYMENT and is final, PAID is never come back to, COMPLETED is left only for REFUNDED, and a refunded order never changes |
| `OrderRuns.PaidAtMostOnce` | app/modules/orders/service.py:294-340 | in any run at most one step turns a given order PAID |
| `OrderRuns.AwaitingIsPayableOrExpirable` | app/modules/orders/service.py:230-244 | at every instant an awaiting order is exactly one of payable or expirable, and no other order is either |
| `OrderLeases.GivenUpExactlyWhenQuiet` | app/modules/printing/claims.py:139-172 | over every history a sweep gives a task up if and only if it is in a machine's hands and the machine last claimed it, renewed it or said it was printing it more than fifteen minutes before |
| `OrderLeases.SaidExactlyWhileInHand` | app/modules/printing/tasks.py:83-157 | a machine may report on a task exactly while it holds it; a report moves that task alone, and a blocked one leaves its order untold |
| `OrderPrints.MatchAfterPaying` | app/modules/orders/service.py:318-340 | paying queues each line of the order once, in order, with that line's own document, settings and pages, and touches no other order's tasks |
| `OrderPrints.RunKeepsMatch` | app/modules/orders/service.py:294-340 | over every run the i-th task of a paid order prints its i-th line, with that line's document, settings and pages at the order's kiosk, and there are as many as lines; an unpaid order has none, and every task belongs to a paid order that sees it |
| `OrderPrints.PaymentIsMarkPaid` | app/api/student/orders.py:374-383 | the wallet and the gateway both lead through the one commit |
| `OrderPrints.MarkPaidWrites` | app/modules/orders/service.py:315-340 | being paid is written on the order alone, at that instant and under that reference, keeps what was agreed and every earlier task, and queues tasks dated by the database |
| `OrderTruth.DerivedIsTruthful` | app/modules/orders/service.py:430-462 | an order that sees only its own prints derives COMPLETED iff all printed, PARTIALLY_FAILED iff all ended and some did not, DISPATCHED otherwise |
| `OrderTruth.WhatPrintsSay` | app/modules/orders/service.py:430-462 | of the prints in sight: DISPATCHED while one is queued, held, printing or blocked; else PARTIALLY_FAILED if one failed or was cancelled; else COMPLETED if there is one; else as it was |
| `OrderTruth.OwnerIsTheOnlyCandidate` | app/modules/orders/service.py:388-415 | while orders in flight share no file, the order picked for a print is the one that bought it |
| `OrderTruth.ReportIsTruthful` | app/modules/printing/tasks.py:90-157 | after a device's report every paid, unrefunded order's state is still the truth |
| `OrderTruth.SweepIsTruthful` | app/jobs/tasks.py:76-101 | after a sweep of any number of lost tasks, in any order, every paid, unrefunded order's state is the truth |
| `OrderBelief.ConfirmIsTruthful` | app/modules/orders/service.py:465-510 | confirming an order that sees only its own prints keeps every state true |
| `OrderBelief.ConfirmTellsTheTruthExactlyWhen` | app/modules/orders/service.py:465-510 | with other orders' prints in sight the confirmed order tells the truth if and only if each of those has finished, and none was cancelled unless one of its own was |
| `OrderBelief.CalmRunsTellTheTruth` | app/modules/orders/service.py:374-510 | over every run in which orders are paid apart from those in flight and confirmed while they see only their own prints, each paid, unrefunded order's state is the truth; reprints of landed orders included |
| `OrderBelief.PlainRunsTellTheTruth` | app/modules/orders/service.py:440-445 | said of rows alone: over every run in which, when an order is paid, all tasks over its documents at its kiosk were queued before it was placed and no order in flight there has one of them, and none was queued for another order since when it is confirmed, every paid, unrefunded order's state is the truth |
| `OrderBelief.BuyingOnceRunsAreCalm` | app/modules/orders/service.py:388-404 | a run that ends with no file in two paid orders at one kiosk was of that kind throughout |
| `OrderBelief.OrdersTellTheTruth` | app/modules/orders/service.py:374-510 | so from an empty start, if no document is in two paid orders at one kiosk, every paid, unrefunded order is COMPLETED iff all its tasks printed, PARTIALLY_FAILED iff all ended and some did not, PAID or DISPATCHED otherwise |
| `OrderSharing.DerivedTellsTheTruthExactlyWhen` | app/modules/orders/service.py:430-462 | whatever other prints it sees, a paid order with a print of its own to come derives the truth, and one whose prints have all ended derives it if and only if nothing in sight is unfinished, nor unprinted when its own all printed |
| `OrderSharing.ReportKeepsTheTruthExactlyWhen` | app/modules/orders/service.py:388-423 | with any number of orders over one file, a report leaves every order telling the truth if and only if the order it reached is misled by no other print and, where that is not the order it was about, it did not end that order's last print |
| `OrderSharing.SweepKeepsTheTruthExactlyWhen` | app/jobs/tasks.py:76-101 | the same for a sweep of any number of lost tasks: if and only if no order it reached is misled by other prints and none it did not reach had its last print among the lost |
| `OrderSharing.NoOrderLandsEarly` | app/modules/orders/service.py:374-510 | over every run, files shared or not, a COMPLETED or PARTIALLY_FAILED order has no print of its own still to come |
| `OrderSharing.ABlockedOrderNeverLands` | app/modules/printing/tasks.py:311-340 | over every history a blocked task stays BLOCKED, and the order that bought it stays PAID or DISPATCHED or is refunded |
| `OrderLines.PrintedMeansAllPrinted` | app/modules/orders/views.py:261-278 | a line reads printed exactly when something was sent for it and all of that printed |
| `OrderLines.WorstNewsFirst` | app/modules/orders/views.py:261-278 | a line reads the worst of its prints: failed, on the machine, blocked, queued, cancelled, and printed only if nothing else |
| `OrderLines.ALineShowsItsOwnFile` | app/modules/orders/views.py:281-300 | a line goes by the prints of its own file at that kiosk since the order was placed: failed iff one failed, printed iff there are some and all printed, empty iff there are none |
| `OrderLines.ColumnAgreesWithDerivation` | app/modules/orders/views.py:281-300 | the lines all show printed if and only if COMPLETED is what the same tasks derive |
| `OrderLines.PrintedLinesMeanCompleted` | app/modules/orders/views.py:281-300 | for a paid, unrefunded order that sees only its own prints, every line shows printed if and only if the order is COMPLETED |
| `OrderLines.LinesFollowOrders` | app/modules/orders/views.py:281-300 | over every run from an empty start that ends with no file bought twice, every line of a paid, unrefunded order shows printed if and only if it is COMPLETED |
| `OrderMoney.BooksAlwaysBalance` | app/modules/orders/service.py:247-340 | over every run: wallet debits for printing equal the totals of the paid wallet orders; each paid order has exactly one payment of its frozen total, and one debit if paid from the wallet; an unpaid one has none; every balance is the sum of its ledger and not below zero; an order is REFUNDED iff all of its payment went back |
| `OrderMoney.WalletPaymentBalances` | app/modules/payments/charges.py:209-249 | the debit, the captured row and the order turning paid keep the books balanced only together |
| `OrderMoney.WalletPaysExactlyWhen` | app/modules/orders/service.py:247-291 | in any reachable state a wallet payment goes through if and only if the order awaits payment, is not stale, is a wallet order and is covered: nothing refuses after the debit |
| `OrderMoney.DebitsExactly` | app/modules/wallet/ledger.py:151-186 | a debit goes through if and only if the balance covers it and the reference is new to that wallet, and takes exactly that from that balance alone |
| `OrderMoney.TopUpsExactly` | app/modules/wallet/ledger.py:122-150 | a credit goes through if and only if it is positive and its reference new to that wallet, and adds exactly that to that balance alone |
| `OrderMoney.CheckoutsOpenExactlyWhen` | app/api/student/orders.py:278-310 | a checkout opens if and only if the order is a gateway order awaiting payment with something to pay, and asks for its whole total |
| `OrderMoney.RefundsExactly` | app/modules/payments/refunds.py:170-255 | a refund goes through if and only if the money arrived, that much of it is left and a wallet has not had it under that key; it adds to what went back and, to the wallet, raises that student's balance by it and nobody else's |
| `OrderMoney.RefundIsWrittenDown` | app/modules/payments/refunds.py:178-234 | a refund within what is left keeps the books balanced and closes the order exactly when nothing is left |
| `OrderMoney.LateFailureUnsettlesExactlyWhen` | app/modules/payments/charges.py:401-416 | a failure event takes a settled row out of the settled ones if and only if some of it had been refunded |
| `OrderMoney.GuardMissesExactlyWhen` | app/modules/payments/charges.py:316-329 | an order some of whose money went back passes the confirm guard if and only if its newest payment row never arrived |
| `OrderMoney.ConfirmedExactlyWhen` | app/modules/orders/service.py:488-510 | an order is confirmed if and only if it partly failed, its newest payment row has given nothing back and a print over its files since it was placed failed; exactly those prints turn PRINTED |
| `OrderCases.ReprintingHappens` | app/modules/orders/service.py:247-340 | from an empty book, ordinary requests lead to an old failed order and a new one in flight over the same file, for every student, document and price |
| `OrderCases.ConfirmingAfterAReprintMisleads` | app/modules/orders/service.py:465-510 | confirming the old one there sends it to DISPATCHED although every one of its pages printed and both orders told the truth before |
| `OrderCases.TheReprintCompletes` | app/modules/orders/service.py:440-445 | from an empty book, the second purchase of a file whose first print failed earlier is COMPLETED when its own print comes out |
| `OrderCases.TheOtherOrderHears` | app/modules/orders/service.py:388-423 | from an empty book, with two paid orders over one file in flight, the first one's printed report re-derives the second, and the first stays PAID with every page printed |
| `OrderCases.ConfirmingAfterAPartialRefund` | app/modules/orders/service.py:489-491 | from an empty book, with two checkouts opened, an order some of whose money went back is confirmed all the same |
| `OrderCases.ALateFailureUnsettles` | app/modules/payments/charges.py:401-416 | from an empty book, a failure reported after a part refund unsettles a row whose money is still held, for an order still to be printed |
| `OrderCases.CaptureKeptExactlyWhen` | app/modules/payments/charges.py:364-398 | a capture is kept if and only if its row is not captured, the gateway's id is on no other row, and the order awaits payment and is not stale; kept, the row is settled and the order paid by it |
| `OrderCases.FreshCaptureKeptExactlyWhen` | app/modules/orders/service.py:343-371 | where the books balance, a capture new to the gateway is kept if and only if its order awaits payment and is not stale |
| `OrderCases.ExpiredOrdersAreNeverPaid` | app/modules/orders/service.py:343-371 | over every run, an expired order stays expired and no row naming it ever has money recorded |
| `OrderCases.ALateCaptureIsRolledBack` | app/modules/payments/webhook.py:183-185 | from an empty book, when an order is placed, its checkout opened, its time runs out and then the money comes, the capture is refused: the row stays as it was opened, without the gateway's id, and the book is unchanged |
| `OrderBook.PaymentForOrder` | app/modules/payments/charges.py:316-329 | the newest payment row naming the order, whatever its status |
| `SubscriptionQuotes.DiscountedIsBounded` | app/modules/billing/quotes.py:103-115 | a discounted total lies between nothing and the undiscounted price |
| `SubscriptionQuotes.QuotesAreBounded` | app/modules/billing/quotes.py:77-115 | every quote that is given lies in [0, months x price] |
| `SubscriptionQuotes.DeeperDiscountNeverCostsMore` | app/modules/billing/quotes.py:103-115 | the total is antitone in the discount, rounding included |
| `SubscriptionQuotes.QuotesArePriced` | app/modules/billing/quotes.py:77-115 | a quote is the months at the rate agreed with the owner, else the plan's to the nearest paisa, less the owner's own discount, else the plan's, to the nearest paisa, and says which |
| `SubscriptionQuotes.QuotedExactlyWhen` | app/modules/billing/quotes.py:77-103 | quoted if and only if sold for 1, 6 or 12 months of an active plan at a price not below zero and a discount of 0 to 100 per cent |
| `SubscriptionQuotes.TheOwnersTermsWin` | app/modules/billing/quotes.py:50-75 | an agreed price and an owner's own discount stand whatever the plan's price and discount are |
| `SubscriptionTable.Subscriptions.ActiveSubscription` | app/modules/billing/subscriptions.py:66-81 | the scan answers with a row of this owner in force that runs longest, or none if none is |
| `SubscriptionTable.Subscriptions.Purchase` | app/modules/billing/purchase.py:54-123 | cancels a stale purchase and opens a quoted one, or refuses and leaves the table alone |
| `SubscriptionTable.Subscriptions.PutInForce` | app/modules/billing/purchase.py:126-173 | starts the term where the longest row in force ends, once; a second activation changes nothing |
| `SubscriptionTable.Subscriptions.Grant` | app/modules/billing/subscriptions.py:123-182 | extends a running trial or opens one |
| `SubscriptionTable.Subscriptions.StopTrial` | app/modules/billing/subscriptions.py:185-198 | from that instant on the row is in force exactly as far as it was paid for, and no other row is touched |
| `SubscriptionRuns.NextTermStartsAfterEveryExpiry` | app/modules/billing/purchase.py:154-169 | the row with the longest effective end, grace included, still gives a start no earlier than every paid expiry |
| `SubscriptionRuns.ATermStartsNowOrWhereAnotherEnds` | app/modules/billing/purchase.py:146-161 | an activated term starts now, or at the expiry or trial end of another row of that owner: never later, never at the end of a grace period |
| `SubscriptionRuns.EarlyRenewalsAreBackToBack` | app/modules/billing/purchase.py:146-161 | over every history without trials, prompt readings given, a term starts at the latest of now and every expiry that owner has paid for |
| `SubscriptionRuns.ActivatedExactlyWhen` | app/modules/billing/purchase.py:126-173 | put in force if and only if it awaits payment and is for a month at least, for thirty days a month and five of grace; one in force already, and every other row, stays as it is |
| `SubscriptionRuns.NoTimeSoldTwice` | app/modules/billing/purchase.py:154-169 | over every run of purchases, activations, trials and endings each paid term is thirty days per month bought and no instant is sold to one owner twice |
| `SubscriptionRuns.PromptnessIsExact` | app/modules/billing/subscriptions.py:66-81 | disjointness holds if and only if the second clock reading of an activation is within the grace period of the first |
| `SubscriptionRuns.ALatePaymentSellsAnInstantTwice` | app/modules/billing/purchase.py:140-169 | from an empty table, two purchases of any quotable terms and two activations sell one instant twice, the second reading of the last coming after the grace period |
| `SubscriptionRuns.NoTimeSoldTwiceExactlyWithinGrace` | app/modules/billing/purchase.py:140-169 | with second readings up to a given delay late, every history from an empty table sells each instant once if and only if the delay is at most the grace period |
| `SubscriptionRuns.NeverTwoPending` | app/modules/billing/purchase.py:76-97 | an owner never has two pending purchases |
| `SubscriptionRuns.BlockedExactlyWhileFresh` | app/modules/billing/purchase.py:76-97 | an owner is told they are already buying exactly while a pending purchase is at most twenty minutes old |
| `SubscriptionRuns.RepeatedActivationsCollapse` | app/modules/billing/purchase.py:140-148 | any run ends as the run keeping only the first activation of each row |
| `SubscriptionRuns.QuotedOnceAndFrozen` | app/modules/billing/purchase.py:99-123 | the figures of a purchase lie in [0, months x price] and no later request rewrites them |
| `SubscriptionRuns.APurchaseIsAtTheOwnersPrice` | app/modules/billing/purchase.py:99-123 | a purchase opens one pending row at the price agreed on the subscription in force, if one was, and the plan's otherwise |
| `SubscriptionRuns.PricesAreAgreedExactly` | app/modules/billing/subscriptions.py:201-217 | a price is agreed, or taken back, on one row if and only if it is not below zero |
| `SubscriptionRuns.OnlyEndingATrialShortensCover` | app/modules/billing/subscriptions.py:123-198 | the longest coverage end moves earlier only through end_trial |
| `SubscriptionRuns.ATrialGivesItsDaysAndNoMore` | app/modules/billing/subscriptions.py:123-182 | a trial is granted if and only if it is for a day or more, covers its owner until those days are over, and gives nobody else anything |
| `SubscriptionRuns.CoverStandsUnlessATrialIsEnded` | app/modules/billing/subscriptions.py:123-198 | over every run in which no trial is ended, an owner covered until an instant stays covered until it |
| `RateLimit.WindowOf` | app/core/ratelimit.py:42-45 | the aligned window containing an instant |
| `RateLimit.Counter.Hit` | app/core/ratelimit.py:79-148 | allowed if and only if fewer than the limit count in this window; an allowed hit counts one, a refused one counts in Redis only, and no other bucket's live count changes, sweep and key expiry included |
| `RateLimit.ForgettingIsSafe` | app/core/ratelimit.py:95-148 | a store that sweeps, or expires keys, holds for the current window what one that never forgets would hold |
| `RateLimit.VerdictIsACount` | app/core/ratelimit.py:79-148 | each store's verdict depends only on how often this window was hit, counted its own way |
| `RateLimit.StoresDifferExactlyWhen` | app/core/ratelimit.py:79-148 | whatever Redis admits memory admits, and they differ on a hit if and only if the limit lies above what was spent and not above what was asked |
| `RateLimit.OneLimitMakesStoresAgree` | app/core/ratelimit.py:79-148 | a key always used with one limit gets the same answer from both |
| `RateLimit.MixedLimitsMakeStoresDisagree` | app/api/ratelimit.py:211-235 | an address used with two limits does not |
| `RateLimit.WindowCeiling` | app/core/ratelimit.py:79-148 | one aligned window lets through at most the limit |
| `RateLimit.AStretchTouchesTwoWindows` | app/core/ratelimit.py:42-45 | any stretch of one window's length meets at most two aligned windows |
| `RateLimit.SlidingCeiling` | app/core/ratelimit.py:42-51 | any interval of one window's length lets through at most twice the limit |
| `RateLimit.WaitingLandsInALaterWindow` | app/core/ratelimit.py:48-51 | waiting as long as a refusal says lands in a later window, and the wait is at most one window |
| `RateLimitMiddleware.KeysNeverCollide` | app/api/ratelimit.py:117-148 | accounts, addresses and routes never share a bucket key |
| `RateLimitMiddleware.Middleware.Call` | app/api/ratelimit.py:188-243 | the rule-by-bucket loop spends buckets in order and stops at the first refusal |
| `RateLimitMiddleware.LetThroughExactlyWhenRoom` | app/api/ratelimit.py:211-235 | where a route's rules have distinct windows, a request is let through if and only if under every rule, in the windows of its readings, its account has been counted less than the limit and its address less than twenty times the limit, or an anonymous caller's address less than the limit |
| `RateLimitMiddleware.EverybodyWithinTheirShareIsLetThrough` | app/api/ratelimit.py:66-76 | within one window, signed-in calls from one address, none of an account over the limit and in all no more than twenty times it, are let through every one |
| `RateLimitMiddleware.TwentyAccountsGetTheirLimits` | app/api/ratelimit.py:66-76 | twenty accounts behind one address each get their whole limit, and then nobody gets more from that address in that window |
| `RateLimitMiddleware.SpendingReplaysAPrefix` | app/api/ratelimit.py:211-243 | a request makes a prefix of its planned hits, all of them unless the last was refused |
| `RateLimitMiddleware.ReplayExtendsHistory` | app/api/ratelimit.py:211-243 | so a request leaves the store as the history before it, extended by the hits it made |
| `RateLimitMiddleware.CallIsItsSteps` | app/api/ratelimit.py:188-243 | in any traffic a call leaves the store as the hit-by-hit steps of its request do, is answered allowed if and only if those let it through, and moves no other request |
| `RateLimitMiddleware.CallsAreAFlow` | app/api/ratelimit.py:188-243 | calls made in turn, by any callers, are one of the flows of hits the ceilings are about: same store, same requests let through |
| `RateLimitMiddleware.BucketCeiling` | app/api/ratelimit.py:211-243 | in any interleaving of requests, those let through one bucket in one window are at most its limit |
| `RateLimitMiddleware.EveryRuleHolds` | app/api/ratelimit.py:188-243 | for all rules at once, each aligned window passes at most limit requests per account, 20 x limit per address and limit anonymous ones per address |
| `KioskStages.Shop.MoveTo` | app/modules/kiosks/onboarding.py:58-90 | refused exactly off the transition table or at LIVE for an owner who cannot collect, the stage then standing; RETIRED is never left, and an owner-collecting shop enters LIVE only if its owner can collect |
| `KioskStages.Shop.ReconcileBillingState` | app/modules/kiosks/onboarding.py:93-126 | afterwards an owner-collecting kiosk is LIVE or in MAINTENANCE only if its owner can collect and suspended only if not; no other stage and no platform kiosk is touched |
| `KioskStages.Shop.ChangeType` | app/modules/kiosks/registry.py:139-173 | a kiosk just made owner-collecting is not selling and must be configured again; the stage moves for no other change, and the wallet flag for none |
| `KioskStages.Shop.SetAcceptsWallet` | app/modules/kiosks/registry.py:187-204 | refused exactly when turning wallet on where an owner collects; so the flag turns on only at a platform kiosk |
| `KioskStages.Shop.ReportStuck` | app/modules/kiosks/commands.py:220-260 | closes exactly a LIVE shop under no claim, takes the claim exactly then, and otherwise changes nothing |
| `KioskStages.Shop.ReportRecovered` | app/modules/kiosks/commands.py:263-295 | lets the claim go and reopens exactly a claimed shop in MAINTENANCE; refused exactly where the owner cannot collect, and then nothing changes |
| `KioskStages.LiveOwnersWereChecked` | app/modules/kiosks/onboarding.py:58-126 | in every reachable state a LIVE owner-collecting kiosk passed the collection check at its latest entry to LIVE under its present type |
| `KioskStages.NobodySkipsConfigured` | app/modules/kiosks/enums.py:53-83 | every path from REGISTERED or APPROVED to LIVE crosses CONFIGURED |
| `KioskStages.TheTable` | app/modules/kiosks/enums.py:53-83 | setting up goes a stage at a time, forth and back; a shop opens from CONFIGURED; LIVE, MAINTENANCE and SUSPENDED_BILLING change into one another; any stage but RETIRED may retire; nothing else moves |
| `KioskStages.RetiredIsFinal` | app/modules/kiosks/enums.py:53-83 | RETIRED is never left, by any door |
| `KioskStages.ClosuresAndRecoveriesAlternate` | app/modules/kiosks/commands.py:220-295 | machine closures and recoveries alternate, each reopening answers the closure just before it, and the claim is held iff the last closure is unanswered |
| `KioskStages.RefusedReopeningKeepsTheClaim` | app/modules/kiosks/commands.py:263-295 | a reopening is refused exactly when the owner cannot collect, and then the claim stays |
| `KioskStages.MachineShutItExactlyWhen` | app/modules/kiosks/commands.py:220-295 | over every run, whenever the claim is held some operation put the shop into MAINTENANCE, and the last to do so was the machine's report if and only if no hand has done it since the claim was taken |
| `KioskStages.RecoveryUndoesItsOwnClosingExactlyWhen` | app/modules/kiosks/commands.py:263-295 | over every run: a recovery reopens exactly a claimed shop in MAINTENANCE where money can be taken, and the operation that last put it there was the machine's report if and only if nobody moved it to MAINTENANCE by hand while the claim was held |
| `KioskStages.RecoveryCanUndoAPersonsClosing` | app/modules/kiosks/commands.py:263-295 | a run in which the last closing was a person's, under the claim, and the recovery reopens the shop |
| `KioskStages.SellingEndsWalletPayments` | app/modules/payments/gate.py:75-89 | once a kiosk is sold no balance is spent there, whatever its flag, until it is the platform's again |
| `KioskStages.WalletSpentExactlyWhen` | app/modules/payments/gate.py:75-89 | a balance is spent if and only if the kiosk is the platform's and accepts it |
| `KioskStages.WhoCollects` | app/modules/payments/gate.py:45-67 | the platform collects exactly at its own kiosks; at a SOLD or SAAS one the owner does exactly while there is one who subscribes and has set keys, and otherwise nobody does |
| `KioskStages.AnOpenShopHasACollector` | app/modules/payments/gate.py:92-100 | a shop that is opened, reopened or reconciled by that answer and is LIVE has somebody collecting |
| `KioskStages.TheFlagStandsExactlyWhen` | app/modules/kiosks/registry.py:139-204 | over every run the accepts-wallet flag stands if and only if it stood at first, or was turned on while the platform collected, and was never turned off since, whoever came to collect meanwhile |
| `DeviceCommands.Commands.RequestCommand` | app/modules/kiosks/commands.py:69-120 | answers with a waiting command of that kind than which none is newer, makes one exactly where none was waiting, touches no other row and keeps commands of a kind in turn |
| `DeviceCommands.Commands.ClaimCommands` | app/modules/kiosks/commands.py:123-161 | hands out exactly the queued, unexpired commands in order and expires the rest |
| `DeviceCommands.WhatAClaimDoes` | app/modules/kiosks/commands.py:123-161 | a claim sends exactly this kiosk's queued commands that have not run out, expires exactly those that have, and touches no other |
| `DeviceCommands.Commands.ReportCommand` | app/modules/kiosks/commands.py:164-200 | finishes exactly an open command of the machine's own kiosk, as the report says, and touches no other |
| `DeviceCommands.FinishedIsFinal` | app/modules/kiosks/enums.py:112-129 | over every run finished states are final and nothing returns to QUEUED |
| `DeviceCommands.HandedOutAtMostOnce` | app/modules/kiosks/commands.py:123-161 | in any interleaving each command is handed out at most once and never at or after its expiry |
| `DeviceCommands.OneOpenCommandOfAKind` | app/modules/kiosks/commands.py:88-110 | with a clock that does not go back, at most one open unexpired command exists per kiosk and kind |
| `Earnings.ByDay` | app/modules/payments/earnings.py:171-230 | the gap-filling loop returns the day series; whenever there is one every column adds up to the window's total, and there is none exactly when a counted payment was never captured |
| `Earnings.AdjoiningWindowsAddUp` | app/modules/payments/earnings.py:78-117 | windows that meet add up to the window they make |
| `Earnings.OnePaymentMore` | app/modules/payments/earnings.py:73-117 | one payment more adds its own figures if and only if it bought prints, arrived, was taken at a kiosk asked about by a means asked about within the half-open window |
| `Earnings.KiosksAddUp` | app/modules/payments/earnings.py:120-160 | the split covers exactly the kiosks asked about and, each taken once, adds up to the total in every column |
| `Earnings.AKioskIsAQuery` | app/modules/payments/earnings.py:120-160 | a kiosk's share is what the same query totals over that kiosk alone |
| `Earnings.DaysAddUp` | app/modules/payments/earnings.py:171-230 | for every list and query with a series, the empty one included, each of its columns adds up to the window's total |
| `Earnings.SeriesIsUnbroken` | app/modules/payments/earnings.py:219-230 | the series is contiguous, each day holds its own payments' sums, and it starts and ends on days with takings |
| `Earnings.ADayIsAWindow` | app/modules/payments/earnings.py:171-230 | a day shows what the same query totals over that day alone, midnight to midnight five and a half hours ahead of UTC |
| `Earnings.UndatedExactlyWhenNeverCaptured` | app/modules/payments/earnings.py:197-225 | the series is refused if and only if a counted payment was never captured, and never for a window with an end given |
| `WalletMigration.Plan` | app/migration/wallets.py:89-127 | the loop over the ordered dictionary computes the fold of the legacy rows |
| `WalletMigration.OneRecipientPerAddress` | app/migration/wallets.py:89-127 | one recipient per folded address, in first-seen order |
| `WalletMigration.OneAddressExactlyWhen` | app/migration/wallets.py:100 | two addresses are one recipient's if and only if, between the blanks around each, they have the same letters in whichever case |
| `WalletMigration.PlanIsFaithful` | app/migration/wallets.py:113-125 | for every list, each recipient owns exactly the rows at its address, oldest first, has the oldest one's password and standing, holds what merging their balances one by one comes to, and goes by the first name that is not empty |
| `WalletMigration.EveryIdOnce` | app/migration/wallets.py:89-127 | every legacy id occurs as owner or merged exactly as often as it was read |
| `WalletMigration.MoneyIsPlannedExactly` | app/migration/wallets.py:113-125 | for every list, recipient balances sum to the rounded legacy balances, plus one paisa for each tie carried up across zero, less one for each carried down |
| `WalletMigration.NoPaisaIsLostExactlyWhen` | app/migration/wallets.py:113-125 | no paisa is made or lost if and only if as many ties are carried up across zero as down |
| `WalletMigration.NoPaisaIsLost` | app/migration/wallets.py:113-125 | nothing is made or lost if no balance is below zero, as none the migration reads is, or none is a half paisa |
| `WalletMigration.EachAddressHoldsItsMoney` | app/migration/wallets.py:113-125 | on the same lists each address holds exactly the sum of its rounded balances |
| `WalletMigration.MergedAreTheRepeats` | app/migration/wallets.py:139-141 | addresses merged equals rows minus distinct addresses |
| `WalletMigration.MergingADebtCanMakeAPaisa` | app/migration/wallets.py:122 | the plan of a paisa and then half a paisa of debt at one address holds a paisa nobody had |
| `WalletMigration.MergingIntoADebtCanLoseAPaisa` | app/migration/wallets.py:122 | the other way about, the plan is a paisa short |
| `MigrationRun.Migration.CarryBalance` | app/modules/wallet/imports.py:62-108 | leaves the wallet at the balance carried, moving only the difference, or refuses a debt |
| `MigrationRun.Migration.MigrateWallets` | app/migration/wallets.py:130-184 | the counters of the report, and the wallets afterwards; nothing is written unless asked |
| `MigrationRun.EveryWalletHoldsItsBalance` | app/migration/wallets.py:130-184 | every recipient not refused ends with exactly its legacy balance |
| `MigrationRun.RefusedAreTheDebts` | app/migration/wallets.py:170-178 | the addresses refused are exactly those that owe |
| `MigrationRun.ReconcilesExactlyWhen` | app/migration/wallets.py:78-86 | where nobody owes, the report reconciles if and only if every wallet was empty before |
| `MigrationRun.WritesNothingExactlyWhen` | app/modules/wallet/imports.py:81-87 | a run writes nothing if and only if every wallet already holds its balance |
| `MigrationRun.RunningAgainWritesNothing` | app/modules/wallet/imports.py:29-33 | a run made again at once writes nothing |
| `MigrationRun.SpendingComesBack` | app/modules/wallet/imports.py:62-108 | carry, let a student spend, carry again: one entry is written, for exactly what was spent, and every wallet ends as the first pass left it |
| `Sessions.Sessions.IssueTokens` | app/modules/identity/sessions.py:57-62 | adds one token, exchangeable at every instant of the next thirty days; a new family holds it alone, and families keep one user each |
| `Sessions.Sessions.RevokeFamily` | app/modules/identity/sessions.py:70-75 | kills every token of the family and no other |
| `Sessions.Sessions.RevokeAll` | app/modules/identity/sessions.py:121-126 | kills every token of the user and no other |
| `Sessions.Sessions.RevokeRefresh` | app/modules/identity/sessions.py:112-118 | from that instant on the token can never be exchanged, and no other token is touched |
| `Sessions.Sessions.RotateRefresh` | app/modules/identity/sessions.py:78-109 | what the session holds when it returns or raises |
| `Sessions.DeadFamiliesStayDead` | app/modules/identity/sessions.py:78-109 | once every token of a family is dead no later rotation succeeds on it or adds a member, over any run |
| `Sessions.SigningOutEverywhereKills` | app/modules/identity/sessions.py:121-126 | revoke_all kills every family of its user |
| `Sessions.FamiliesHaveOneUser` | app/modules/identity/sessions.py:44-62 | no family ever has two users |
| `Sessions.GraceNeverRenews` | app/modules/identity/sessions.py:87-104 | however often a token is presented, it is accepted only within sixty seconds of its first rotation and before it expires |
| `Sessions.ExchangedExactlyWhen` | app/modules/identity/sessions.py:78-109 | over every run a token is exchanged if and only if its user is active, it has not expired, nobody has signed it out since it was issued, and at most sixty seconds have passed since it was first exchanged, if it was |
| `Sessions.TokensLastThirtyDays` | app/modules/identity/sessions.py:44-62 | every token expires thirty days after it was issued, whatever is done with it since |
| `Sessions.ReplayKillsOnlyInItsSession` | app/modules/identity/sessions.py:92-97 | at the raise the family is dead in the session, and nothing of it is committed |
| `Sessions.TheOtherTokenSurvivesAReplay` | app/api/deps.py:81-92 | so another token of the family still rotates |
| `Sessions.AThiefKeepsTheFamily` | app/modules/identity/sessions.py:78-109 | from no tokens: sign-in, refresh, the first token replayed over a minute later and refused, its family dead in that session, and the second token still exchanged for a third in the same family |
| `Alerts.Console.RaiseAlert` | app/modules/ops/alerts.py:29-106 | answers with a row open for the key, seen once more and no milder than it was or than reported; new exactly where none was open; no other row changes, and keys keep one open row each |
| `Alerts.Console.Resolve` | app/modules/ops/alerts.py:135-157 | the row is closed and otherwise as it was, and no other is touched; closing a closed one is nothing |
| `Alerts.Console.ResolveByKey` | app/modules/ops/alerts.py:160-194 | nothing is open for the key afterwards, and every row but the one closed is as it was |
| `Alerts.Console.WatchOfflineKiosks` | app/jobs/tasks.py:103-141 | the sweep clears or raises each shop and writes only when the row is new |
| `Alerts.HowAShopIsFound` | app/jobs/tasks.py:103-141 | well exactly while its machine is online; a warning exactly when last seen less than an hour ago; otherwise critical |
| `Alerts.Console.WatchPaper` | app/jobs/tasks.py:204-253 | the same for trays, empty being worse than low |
| `Alerts.HowATrayIsFound` | app/jobs/tasks.py:204-253 | well exactly above fifty sheets, critical exactly when empty, otherwise a warning |
| `Alerts.AlertsTellTheirEpisode` | app/modules/ops/alerts.py:29-106 | over every history: at most one open alert per key, its occurrences the raises since it opened, its severity the worst of them |
| `Alerts.WorstIsTheMaximum` | app/modules/ops/alerts.py:109-117 | that worst is the maximum of what was raised |
| `Alerts.ToldOncePerEpisode` | app/jobs/tasks.py:134-139 | over every run of sweeps, reports and resolutions the rounds of messages about a shop equal the alert rows opened |
| `Alerts.WholeSweepsTellOnce` | app/jobs/tasks.py:103-253 | over every history of whole sweeps with anything else between them: one open alert at most per key telling its episode, and one round of messages per alert opened |
| `PaymentKeys.KeyStore.SetKeys` | app/modules/payments/configs.py:152-192 | the first setup, or a change that uses one approved request, or a refusal that writes nothing |
| `PaymentKeys.KeyStore.SetWebhookSecret` | app/modules/payments/configs.py:195-221 | refused exactly for an empty secret; spends no approval, changes nobody's keys, and touches no other owner |
| `PaymentKeys.KeyStore.RequestChange` | app/modules/payments/configs.py:262-279 | refused exactly while a request awaits review; either way one awaits review afterwards, and only one; no keys change |
| `PaymentKeys.KeyStore.ReviewChange` | app/modules/payments/configs.py:282-305 | decides exactly a pending request, as asked, and no other; a decision writes no keys |
| `PaymentKeys.OneApprovalOneChange` | app/modules/payments/configs.py:152-192 | over every run key writes equal one for the first setup plus the USED requests, USED plus still APPROVED equals the approvals given, and the keys in force are the last ones so written |
| `PaymentKeys.NeverTwoAwaitingReview` | app/modules/payments/configs.py:262-279 | at most one request per owner is pending |
| `PaymentKeys.KeysAreRefusedExactlyWhen` | app/modules/payments/configs.py:167-179 | keys are refused if and only if something is missing, or others are in force and no approval waits |
| `PaymentKeys.KeysChangeNothingElse` | app/modules/payments/configs.py:152-192 | keys that are taken are the ones given; the webhook secret, other owners and other requests stand, and one approval is used exactly if others were in force |

## Left out

- OrderService.Orders.PlaceOrder: the kiosk gate's answer, the paper left and whether a page range parses are parameters; page-range parsing itself is not modelled.
- OrderService.Orders.ReportTask: paper accounting, sheet counts and error texts of a report are not modelled; they move no order and no money.
- OrderService.Orders.RecordCapture: signatures are taken as verified, and a delivery about another account as refused before it.
- OrderMoney.RefundIsWrittenDown: which destinations a payment allows and the repeated idempotency key are not modelled; every refund may go either way, with a fresh key.
- Sessions.Sessions.RotateRefresh: access tokens and hashing are not modelled; a token's index stands for its secret.
- WalletMigration.Plan: addresses are folded over ASCII; Python folds and strips all of Unicode.
- MigrationRun.Migration.MigrateWallets: the list of accounts without a password, roles granted and failures of the database itself are not modelled.
- KioskStages.Shop.MoveTo: the notes beside a stage are not modelled, nor is `is_active`.
- PaymentKeys.KeyStore.SetKeys: encryption is opaque, and keys arrive with the space around them taken off.
- Earnings.ByDay: the four buckets of `platform_revenue` are not modelled; they are the same filter with other conditions.
- RateLimit.Counter.Hit: a Redis that cannot be reached admits by design and is not modelled; neither is rounding of the clock in floating point.
- KioskPricing.Kiosk.SetPricing: unknown price names cannot be written down here; `registry.set_prices`, unchecked by design, is not one of the writers.
- Concurrent requests: each operation is atomic, as the row locks and unique indexes make it; the rate limiter, whose requests are not, is modelled hit by hit.
- Rows are values in sequences and maps held by an object's fields: aliasing between ORM objects and the order of flushes inside one transaction are not captured.
- Decimal's 28-digit context is exact here, as no sum in the code reaches it.
- Routes, schemas, files, PDF, mail, Google sign-in, Razorpay's HTTP, the wake bus and the WebSocket: plumbing, or calls into other systems.
- One-time tokens, enrolment codes, staff invites, scope checks and the paper counter: true but easy.
