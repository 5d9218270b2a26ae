# Chicken Nation backend: verified protocols

A Dafny model of the stateful protocols of the food-delivery backend, with the properties they keep over
whole runs. `dafny verify dfyconfig.toml` checks everything.

Rows are datatype values held in the maps and sequences of a class; each class plays one service and its
methods take the steps of the original methods, in the same order, with the same guards. Every method is
proved equal to a specification function (`ensures State() == Spec(old(State()), …)`), and the results below
are about that function over all runs; the `…Effects` modules tie it to statuses, keys, percentages and times
written out in full, without the helpers of the handlers. A run is a sequence of events or operations of any length; an
*interleaved* run cuts each handler at its separate database accesses (one conditional update, one insert
under a unique index, one transaction or one plain read or write is one access) and mixes any number of them.

| Part | Modules | Runs |
|---|---|---|
| Turbo delivery tracking: orders, deliveries, courses, awaiting payments | `TurboRows`, `TurboWebhook`, `TurboConfluence`, `TurboPayments`, `TurboInterleaving`, `TurboSystem`, `TurboRaces`, `TurboDeclarations`, `TurboConfirmation`, `TurboAttempts`, `TurboEffects` | serial and interleaved |
| Payment means declared by couriers | `Encaissement` | - |
| Group-ringing calls | `CallRows`, `CallsService`, `CallRace`, `CallEffects` | interleaved |
| OTP lockout | `Otp`, `OtpEffects` | serial, any clock |
| Referral ledger and its dashboards | `ReferralRows`, `ReferralService`, `ReferralLedger`, `ReferralWallet`, `ReferralEffects` | serial |
| Route polylines | `Polyline` | - |
| KKiaPay accounts and secrets | `KkiapayRows`, `KkiapayService`, `KkiapayCaches`, `KkiapayEffects` | serial, failing reads |
| Socket gateway: connection cache, typing indicators | `AuthCache`, `TypingRows`, `TypingGateway` | interleaved at awaits |
| Promo code usages and analytics | `PromoUsage`, `PromoAnalytics`, `PromoEffects` | serial |
| HubRise catalogue pull | `CatalogTables`, `CatalogPull`, `CatalogEffects` | serial |

## What the proofs found

- Fifteen minutes without a success can hold nine compared wrong codes, not eight: a right code entered when a
  lock expires, but whose customer does not exist (or whose token is stored under another spelling of the
  phone), purges the lock and leaves the row behind with a count of zero. Eight is the bound exactly when no
  call does this (`Otp.EightHoldsIff`, `Otp.NineIsReached`).
- `advanceCourse` and `syncStatus` read, then write without a guard. A late write can reopen a COMPLETED course
  and undo a COMPLETED order. Over every interleaved run, a course or an order goes back exactly when such a write
  lands after another access moved the status past it (`TurboRaces.NeverBackIff`,
  `TurboRaces.CompletedCourseCanReopen`, `TurboRaces.CompletedOrderCanGoBack`).
- Two interleaved declarations of one order can both be booked, since the partial unique index guards one source
  at a time. An order's awaiting lines are one declaration exactly when every later declaration that passed its
  check shares a source with the first (`TurboDeclarations.OneDeclarationIff`,
  `TurboDeclarations.BothDeclarationsEnter`).
- A confirmed code turns a CANCELLED delivery into a DELIVERED one, and nothing else ever does: the terminal set is
  closed, CANCELLED alone is not absorbing (`TurboConfirmation.CancelledRisesIff`,
  `TurboConfirmation.CancelledStaysIff`, `TurboConfirmation.CancelledThenDelivered`).
- Five wrong delivery codes are compared at most one handler at a time; interleaved, any sequence of wrong codes may
  be compared before the first is counted, because the count is read, then written. Every wrong code is counted, and
  the ceiling holds whatever follows, exactly when none is compared while another is not counted yet
  (`TurboAttempts.CountedExactlyIff`, `TurboAttempts.CeilingIff`, `TurboAttempts.AnyWrongCodesCompared`).
- A user who answers and rejects at the same time can make the call ONGOING and still have `no-answer` told and the
  room deleted. It can be told from then on, without any further such race, exactly when the call rings, some answer
  is past its check, and every such answer is from a user already removed (`CallRace.FalseNoAnswerIff`,
  `CallRace.SelfRaceTellsNoAnswer`, `CallRace.NoFalseNoAnswer`).
- A crash between the qualification claim and the PRIME insert loses the PRIME for good; a replay repairs everything
  exactly when no PRIME was due (`ReferralLedger.PrimeIsLostForGood`, `ReferralLedger.ReplayRepairsIff`).
- With two promo codes staged on one order, a replayed payment may activate the second one as well, against
  the comment that calls the method idempotent (`PromoUsage.ReplayCountsOnceIff`,
  `PromoUsage.TwoCodesOnOneOrderCountTwice`).

## Model

| member | source | states |
|---|---|---|
| TurboEffects.FormerCourseIsIgnored | src/turbo/services/turbo-webhook.service.ts:107-114 | an event that names another course than the delivery's current one changes nothing, whichever of the six webhooks it is |
| TurboEffects.PickupEffect | src/turbo/services/turbo-webhook.service.ts:149-410 | otherwise an assignment or an arrival moves the delivery's course forward, from the statuses listed, and nothing else |
| TurboEffects.DepartureEffect | src/turbo/services/turbo-webhook.service.ts:149-450 | otherwise a departure starts the course, turns a PENDING delivery IN_ROUTE with one message, and takes an order that has not left to PICKED_UP |
| TurboEffects.HandoverEffect | src/turbo/services/turbo-webhook.service.ts:462-591 | otherwise a handover delivers an active delivery, completes its course when none is left, makes the order COMPLETED if paid, else COLLECTED, and books the declaration of an unpaid open order that awaits nothing |
| TurboEffects.CancellationEffect | src/turbo/services/turbo-webhook.service.ts:608-732 | otherwise the cancellation of one delivery cancels it if active, its course when none is left, and nothing else |
| TurboEffects.GroupCancellationEffect | src/turbo/services/turbo-webhook.service.ts:641-671 | a group cancellation cancels every active delivery of the course named, then the course, and nothing else |
| TurboEffects.ConfirmedIff | src/turbo/services/turbo-webhook.service.ts:825-914 | a code is confirmed if and only if the order is neither CANCELLED nor COMPLETED, the key is its own restaurant's, the delivery is not DELIVERED, fewer than five attempts are recorded, and the code is its pin |
| TurboEffects.VerdictIff | src/turbo/services/turbo-webhook.service.ts:825-914 | every other answer of the validation has its exact condition |
| TurboEffects.CodeEffect | src/turbo/services/turbo-webhook.service.ts:885-972 | a wrong code only counts; a confirmed one delivers, settles the order, books a payment only when the call declares one, completes the course when none is left; any other answer changes nothing |
| TurboConfluence.RunReachesOutcome | src/turbo/services/turbo-webhook.service.ts:149-591 | a serial run of courier_assigned, pickup_started, picked_up, in_transit and delivered webhooks ends in the order, delivery and course statuses computed from the mere set of events, by an independent definition that says which courses complete |
| TurboConfluence.Confluence | src/turbo/services/turbo-webhook.service.ts:149-591 | two streams with the same set of tracking events, in any order and with any repetitions, end in the same statuses |
| TurboConfluence.HandleMovesAhead | src/turbo/services/turbo-webhook.service.ts:149-972 | any of the seven handlers alone never lowers an order or course rank, leaves terminal orders and courses alone, completes only paid orders, keeps deliveries terminal and code attempts at five at most |
| TurboConfluence.RunMovesAhead | src/turbo/services/turbo-webhook.service.ts:149-972 | the same between any two moments of a serial run of all seven events |
| TurboPayments.DeclaredOnce | src/turbo/services/turbo-webhook.service.ts:462-534 | over any serial replay and mix of events, an order's awaiting payments are none or all from one declaration about it, one per source, summing to its valid lines, else its single amount, else the order's amount; and only for an unpaid order |
| TurboPayments.HandlePays | src/turbo/services/turbo-webhook.service.ts:462-534 | a handler adds no payment, or exactly one whole declaration to an unpaid, open order that awaited none |
| TurboPayments.HandoverIsBooked | src/turbo/services/turbo-webhook.service.ts:545-591 | a handover of an unpaid open order never passes without leaving an awaiting payment |
| TurboInterleaving.DrainIsHandle | src/turbo/services/turbo-webhook.service.ts:343-972 | each handler's program of atomic accesses, run without interruption, has the effect of the handler |
| TurboSystem.SerialRunIsAnInterleaving | src/turbo/services/turbo-webhook.service.ts:343-972 | every serial run is one of the interleavings the next results quantify over |
| TurboSystem.GroupCompletion | src/turbo/services/turbo-webhook.service.ts:545-732 | however handlers interleave, a course that Turbo code moved to COMPLETED or CANCELLED has only DELIVERED, FAILED or CANCELLED deliveries, then and ever after |
| TurboSystem.TerminalSetIsClosed | src/turbo/services/turbo-webhook.service.ts:185-243 | however handlers interleave, no delivery leaves the terminal statuses |
| TurboSystem.MessagesAndPaymentsAreUnique | prisma/migrations/20260730150000_paiement_pending_unique_par_moyen/migration.sql:12-14 | however handlers interleave, one departure message per delivery and one awaiting payment per order and source |
| TurboRaces.NeverBackIff | src/turbo/services/turbo-webhook.service.ts:149-334 | over any interleaved run, a course's or an order's status never goes back if and only if no unguarded write lands after another thread moved the status past it since the writer's own read |
| TurboRaces.CompletedCourseCanReopen | src/turbo/services/turbo-webhook.service.ts:149-182 | for any course with one active delivery left, a run in which a pending pickup_started undoes COMPLETED |
| TurboRaces.CompletedOrderCanGoBack | src/turbo/services/turbo-webhook.service.ts:250-334 | for any paid order without delivery, a run in which a late in_transit puts COMPLETED back to PICKED_UP |
| TurboDeclarations.SecondDeclarationRefusedIff | src/turbo/services/turbo-webhook.service.ts:462-514 | of two whole declarations that both found nothing awaiting, the second is refused if and only if they share a source |
| TurboDeclarations.OneDeclarationIff | src/turbo/services/turbo-webhook.service.ts:462-534 | over any interleaved run, awaiting lines start with the first declaration whose check passed, and are that one if and only if each later one that passed shares a source with it; each is one whole declaration about the unpaid order |
| TurboDeclarations.BothDeclarationsEnter | src/turbo/services/turbo-webhook.service.ts:462-591 | for any unpaid open order and any two handovers, a run from the initial state in which both checks pass and both declarations are tried, and both are booked unless they share a source |
| TurboConfirmation.CancelledRisesIff | src/turbo/services/turbo-webhook.service.ts:814-972 | a handler changes a CANCELLED delivery if and only if it is a code validation for it that is confirmed, and then to DELIVERED |
| TurboConfirmation.CancelledThenDelivered | src/turbo/services/turbo-webhook.service.ts:921-924 | any active delivery of an open order can be cancelled by Turbo, then delivered by its code |
| TurboConfirmation.CancelledStaysIff | src/turbo/services/turbo-webhook.service.ts:185-243 | interleaved, a CANCELLED delivery stays so over any continuation if and only if no confirmed validation executes its write |
| TurboConfirmation.OnlyConfirmationsWriteDelivered | src/turbo/services/turbo-webhook.service.ts:814-972 | a handler plans that write if and only if it confirmed a code for the delivery |
| TurboConfirmation.WrittenOnlyAfterConfirmation | src/turbo/services/turbo-webhook.service.ts:814-924 | in any run, that write is only executed by a thread whose validation, earlier in the run, confirmed the code on the rows as they were then |
| TurboConfirmation.OwnKeyAndPin | src/turbo/services/turbo-webhook.service.ts:864-924 | in any interleaving, a delivery is closed by a code only by a thread that was sent the order's own key and the delivery's own pin |
| TurboAttempts.SerialWrongCodes | src/turbo/services/turbo-webhook.service.ts:877-915 | one handler at a time, every wrong code compared is counted and at most five are |
| TurboAttempts.CountedExactlyIff | src/turbo/services/turbo-webhook.service.ts:877-890 | over any interleaved run that leaves no count to write, the attempts recorded are those at the start plus the wrong codes compared, if and only if none was compared while another was not counted yet |
| TurboAttempts.CeilingHolds | src/turbo/services/turbo-webhook.service.ts:877-915 | without such an overlap the attempts at the start plus the wrong codes compared stay within five, whatever other handlers interleave |
| TurboAttempts.CeilingIff | src/turbo/services/turbo-webhook.service.ts:877-915 | the ceiling holds at every point of a history, whatever follows without a further overlap, if and only if the history never overlaps: any overlap lets later wrong codes pass it |
| TurboAttempts.AnyWrongCodesCompared | src/turbo/services/turbo-webhook.service.ts:877-890 | any sequence of wrong codes, of any length, is compared in some run before the first is counted |
| TurboWebhook.TurboWebhookService.HandleDelivered | src/turbo/services/turbo-webhook.service.ts:545-591 | the step-by-step handler leaves the rows the specification of `delivered` gives |
| TurboWebhook.TurboWebhookService.HandleCancelled | src/turbo/services/turbo-webhook.service.ts:608-732 | the same for single and group cancellations, with the course cancelled when no delivery is left |
| TurboWebhook.TurboWebhookService.ValidateCustomerCode | src/turbo/services/turbo-webhook.service.ts:814-972 | the same for code validation: api key, attempt ceiling, wrong code, confirmation and payment |
| Encaissement.Normalise | src/turbo/constantes/turbo.constante.ts:86-117 | the in-place aggregation computes the specified lines; for a positive total they are non-empty, positive and of distinct sources |
| Encaissement.NormalisedConserves | src/turbo/constantes/turbo.constante.ts:86-117 | each source keeps the sum of its valid lines, else the single-field fallback carries the whole amount |
| Encaissement.OrderOfEntriesIrrelevant | src/turbo/constantes/turbo.constante.ts:86-117 | permuting the declared lines changes no source's amount |
| Encaissement.SixMeans | src/turbo/constantes/turbo.constante.ts:50-57 | the six agreed codes with their accounting modes, Wave being a wallet |
| Encaissement.OtherCodesAreCash | src/turbo/constantes/turbo.constante.ts:60-63 | any other code, and none, is cash |
| Encaissement.BlanksAround | src/turbo/constantes/turbo.constante.ts:61-61 | blanks on either side of a code are trimmed away |
| Encaissement.SingleMeans | src/turbo/constantes/turbo.constante.ts:111-116 | without a valid line, one means carries the amount declared if positive, else the whole total |
| Encaissement.ResolveReadsBack | src/turbo/constantes/turbo.constante.ts:60-63 | whatever the code, the means booked is one of the agreed list, and its own source reads back as itself |
| Encaissement.CaseAndBlanksIrrelevant | src/turbo/constantes/turbo.constante.ts:60-63 | a code is read as the same means once trimmed and lowered |
| CallEffects.AnswerEffect | src/modules/calls/services/calls.service.ts:211-260 | an answer is taken exactly from a user still rung while the call rings |
| CallEffects.RejectEffect | src/modules/calls/services/calls.service.ts:267-303 | a rejection is for users who were rung; the last one, and no other, misses the call and tells no-answer |
| CallEffects.StrangerCannotHangUp | src/modules/calls/services/calls.service.ts:365-375 | who is neither the caller, the answerer of record, a user rung nor an administrator is refused and changes nothing |
| CallEffects.HangupEffect | src/modules/calls/services/calls.service.ts:310-362 | what a hang-up does for each of those, by status of the call |
| CallEffects.LostCancelEnds | src/modules/calls/services/calls.service.ts:322-343 | a caller's cancellation that lost to an answer ends the call taken meanwhile and deletes its room |
| CallEffects.OnlyParticipantsEnd | src/modules/calls/services/calls.service.ts:310-362 | in any interleaving, a thread cancels or ends the call only after it read it for the hang-up of someone who belonged to it, of its caller to cancel |
| CallEffects.SweepEffect | src/modules/calls/services/calls.service.ts:405-413 | the sweep ends exactly the ongoing calls that started more than four hours before |
| CallRace.SingleWinner | src/modules/calls/services/calls.service.ts:163-413 | under any interleaving of answers, rejections, hang-ups, sweeps and webhooks, at most one answer wins, it is the answerer of record, was rung and never changes; a MISSED call was rejected by everyone rung; ended calls never move |
| CallRace.NoFalseNoAnswer | src/modules/calls/services/calls.service.ts:267-303 | if nobody rejects while holding an answer past its check, no-answer and its room deletion are never issued for an ONGOING call |
| CallRace.FalseNoAnswerIff | src/modules/calls/services/calls.service.ts:211-303 | a history, at each of its points and whatever follows without a further self race, never has no-answer told on an ONGOING call, if and only if it never reaches a ringing state in which some answer is past its check and all such answers are from removed users |
| CallRace.FalseNoAnswerIsASelfRace | src/modules/calls/services/calls.service.ts:267-303 | in any run, a no-answer told on an ONGOING call means a self race happened, and that its answerer was also removed by a rejection |
| CallRace.SelfRaceTellsNoAnswer | src/modules/calls/services/calls.service.ts:283-294 | for any receivers and any one of them, a run that tells no-answer on an ONGOING call |
| CallRace.AloneIsSerial | src/modules/calls/services/calls.service.ts:211-362 | a request's accesses, uninterrupted, leave the row and signal what the endpoint does |
| CallsService.Calls.Reject | src/modules/calls/services/calls.service.ts:267-303 | row, reply and signals of a rejection: removal, and for the last one the MISSED claim, no-answer and room deletion |
| CallsService.Calls.Hangup | src/modules/calls/services/calls.service.ts:310-362 | row, reply and signals of a hang-up alone: refused to strangers, a receiver's is a rejection, the caller's cancels, otherwise the call ends |
| OtpEffects.LockedIff | src/modules/auth/services/auth.service.ts:204-223 | a phone is refused exactly while its lock runs, with the minutes left rounded up |
| OtpEffects.FailureCounts | src/modules/auth/services/auth.service.ts:230-266 | a wrong code adds one to the count, or starts a new window after 15 minutes; the fifth locks for 15 minutes |
| OtpEffects.SuccessForgets | src/modules/auth/services/auth.service.ts:188-196 | a success deletes the row of the phone the code was sent to and leaves every other as it was, but for an expired lock |
| OtpEffects.FiveMoreToLock | src/modules/auth/services/auth.service.ts:188-275 | over any run, after a success for a phone it is not refused until five more wrong codes were compared for it |
| OtpEffects.FiveLockForFifteenMinutes | src/modules/auth/services/auth.service.ts:204-260 | five wrong codes within 15 minutes refuse the phone for the 15 minutes after the fifth, and no longer |
| Otp.RateBound | src/modules/auth/services/auth.service.ts:139-266 | in any 15 minutes without a success that clears the row, at most 9 wrong codes are compared for a phone, over any chronological run |
| Otp.EightHoldsIff | src/modules/auth/services/auth.service.ts:139-266 | 8 bounds every point of a history followed by any wrong codes, if and only if no call let a right code leave the row behind, empty, after a lock |
| Otp.EightIsReached | src/modules/auth/services/auth.service.ts:204-260 | 3 codes left over from an open window and 5 up to the lock do occur within 15 minutes |
| Otp.NineIsReached | src/modules/auth/services/auth.service.ts:142-196 | a run with 9 |
| Otp.OtpService.VerifyOtp | src/modules/auth/services/auth.service.ts:139-196 | the method reads, purges, counts, locks and deletes as the specification of a verification says |
| ReferralLedger.RunIsHonest | src/modules/referral/referral.service.ts:163-426 | in every reachable ledger an earning is positive and belongs to a rewarded referral, PRIME exactly on its qualifying order, each order and type is booked once, and the cap holds |
| ReferralLedger.RunMovesOn | src/modules/referral/referral.service.ts:351-767 | amounts and owners never change, PAID and CANCELLED earnings and rewarded referrals are for good |
| ReferralLedger.CapHolds | src/modules/referral/referral.service.ts:378-426 | with a positive cap, a referee's standing earnings never exceed it through any mix of accruals, revocations, promotions and payouts |
| ReferralLedger.OnePrime | src/modules/referral/referral.service.ts:246-343 | a referral has at most one PRIME, on its qualifying order, which never yields a COMMISSION |
| ReferralLedger.AccrualReplay | src/modules/referral/referral.service.ts:246-343 | accruing the same order again, at any later time and in any ledger, changes nothing |
| ReferralLedger.ReplayRepairsIff | src/modules/referral/referral.service.ts:163-183 | after a crash right behind the claim, replaying the order gives what the uninterrupted accrual gives, if and only if no PRIME was due |
| ReferralLedger.PrimeCanBeDue | src/modules/referral/referral.service.ts:280-290 | any fresh referral on an eligible order is a case where one is due |
| ReferralLedger.PrimeIsLostForGood | src/modules/referral/referral.service.ts:246-302 | where one was due, the uninterrupted accrual books it, and after the crash no later run ever holds a PRIME of that referee |
| ReferralEffects.AccrualIff | src/modules/referral/referral.service.ts:246-426 | an order books an earning if and only if it earns one: a PRIME on a qualifying order above the minimum, or a COMMISSION within the window, not booked before and above zero under the cap |
| ReferralEffects.EveryEarningHasItsPrice | src/modules/referral/referral.service.ts:246-426 | in every reachable ledger, each earning was booked by one paid order at the prime, or at the percentage of its net rounded halves up, or at what the cap then left of it |
| ReferralEffects.AmountsAreFair | src/modules/referral/referral.service.ts:280-330 | no commission exceeds its percentage of the order, rounded, no prime the prime of the settings |
| ReferralEffects.QualifiesIff | src/modules/referral/referral.service.ts:163-183 | a paid order qualifies exactly a waiting referral whose welcome gift it used |
| ReferralEffects.ApplyIff | src/modules/referral/referral.service.ts:90-154 | a code is applied exactly for a customer not yet referred nor served, with somebody else's code |
| ReferralEffects.CancellationEffect | src/modules/referral/referral.service.ts:351-370 | cancelling an order cancels exactly its PENDING and PAYABLE earnings |
| ReferralEffects.ThresholdEffect | src/modules/referral/referral.service.ts:733-750 | the threshold releases exactly the PENDING earnings of referrers whose PENDING earnings reach it |
| ReferralEffects.MarkPaidEffect | src/modules/referral/referral.service.ts:754-767 | exactly the chosen PAYABLE earnings are paid |
| ReferralService.Referrals.AccrueForPaidOrder | src/modules/referral/referral.service.ts:246-343 | the step-by-step accrual is the specified one |
| ReferralService.Referrals.AdminApplyPayoutThreshold | src/modules/referral/referral.service.ts:733-750 | exactly the PENDING earnings of referrers at or over the threshold become PAYABLE |
| ReferralWallet.Dashboard | src/modules/referral/referral.service.ts:497-514 | the wallet's loop: prime plus commission equal payable plus paid, and each line is what its referee brought, whatever the rows |
| ReferralWallet.WalletAddsUp | src/modules/referral/referral.service.ts:468-544 | in every reachable ledger the gains listed per referee sum to prime plus commission and to payable plus paid |
| ReferralEffects.KindsAddUp | src/modules/referral/referral.service.ts:572-650 | in every reachable ledger the primes listed per referee sum to the wallet's primes, the commissions to its commissions |
| ReferralEffects.FiguresTake | src/modules/referral/referral.service.ts:497-514 | which rows each figure of the dashboards takes |
| ReferralWallet.NoLineAboveCap | src/modules/referral/referral.service.ts:516-526 | no wallet line exceeds a positive cap |
| ReferralWallet.MobileLines | src/modules/referral/referral.service.ts:572-628 | the mobile screen's per-referee totals, computed from a group-by, equal the wallet's gains |
| ReferralWallet.AdminList | src/modules/referral/referral.service.ts:660-705 | an ambassador is listed exactly when an earning of theirs stands, with the balances of their rows |
| ReferralWallet.AdminAgreesWithWallet | src/modules/referral/referral.service.ts:688-705 | the admin list and the customer's wallet show the same balances |
| ReferralWallet.OverThresholdIsWhoGetsReleased | src/modules/referral/referral.service.ts:703-750 | `over_threshold` announces exactly the ambassadors whose PENDING earnings a threshold run releases |
| Polyline.RoundTrip | src/modules/maps/maps.service.ts:123-151 | decoding the standard encoding of any points within the 32-bit zigzag range, which covers all coordinates in 1e-5 degrees, gives them back |
| Polyline.PublishedExample | src/modules/maps/maps.service.ts:123-151 | the encoding inverted is the published one: its three-point example comes out character for character |
| Polyline.AtMostHalf | src/modules/maps/maps.service.ts:123-151 | on any text, even truncated, decoding ends with at most half as many points as characters, rounded up |
| Polyline.ReadBack | src/modules/maps/maps.service.ts:128-136 | reading one encoded number stops right after it with its value, whatever follows |
| Polyline.UnzigzagIs | src/modules/maps/maps.service.ts:136-145 | on any 32-bit word, even ones halve and odd ones halve and flip |
| Polyline.PastTheEnd | src/modules/maps/maps.service.ts:128-136 | past the end of a truncated text a number is what was gathered so far |
| Polyline.Decode | src/modules/maps/maps.service.ts:123-151 | the nested loops compute the specified decoding, with 32-bit shifts |
| KkiapayService.Kkiapay.ResolveAccount | src/kkiapay/kkiapay.service.ts:140-193 | the method serves and caches as specified, including the stale copy on a failed read and the nested global resolution |
| KkiapayService.Kkiapay.VerifyTransaction | src/kkiapay/kkiapay.service.ts:265-296 | a transaction is credited to the account that recognised it, is not found exactly when every account asked said so, and is to be retried exactly when one could not be resolved or reached |
| KkiapayService.Kkiapay.RefundTransaction | src/kkiapay/kkiapay.service.ts:303-327 | a refund is sent to the very account it is asked for, or to none |
| KkiapayEffects.GlobalAccountIs | src/kkiapay/kkiapay.service.ts:113-133 | which setting and environment variable make each key and the sandbox flag of the global account |
| KkiapayEffects.DedicatedEffect | src/kkiapay/kkiapay.service.ts:146-193 | with complete keys a restaurant gets its own account for a minute, with its own flag or the global one |
| KkiapayEffects.FallbackEffect | src/kkiapay/kkiapay.service.ts:185-192 | with incomplete keys it gets the global account for a minute, if that can be read |
| KkiapayEffects.FailureEffect | src/kkiapay/kkiapay.service.ts:168-182 | when its settings cannot be read it keeps the account it had, or the call fails; nothing is cached |
| KkiapayEffects.SecretIs | src/kkiapay/kkiapay.service.ts:222-230 | a restaurant's secret is its own setting; the global one falls back on the environment |
| KkiapayEffects.SecretEffect | src/kkiapay/kkiapay.service.ts:213-250 | a secret is served while fresh, read and kept for a minute, purged when gone, and kept in use when the read fails |
| KkiapayCaches.RunIsBacked | src/kkiapay/kkiapay.service.ts:113-193 | over any serial run, a cached account is what the settings said at the moment its lifetime started |
| KkiapayCaches.ServedIsRecent | src/kkiapay/kkiapay.service.ts:140-193 | when no read fails, the account served is one the settings described less than 60 s ago |
| KkiapayCaches.SandboxIsRecent | src/kkiapay/kkiapay.service.ts:157-159 | its flag is the restaurant's own, under 60 s old, or the global one, under 120 s old |
| KkiapayCaches.KeysConverge | src/kkiapay/kkiapay.service.ts:140-193 | sixty seconds after the last change of keys, calls serve exactly what they say: dedicated if and only if complete |
| KkiapayCaches.NoPoisoning | src/kkiapay/kkiapay.service.ts:168-191 | even under failing reads, a restaurant is served the global account only because a successful read found its keys incomplete |
| KkiapayCaches.SecretConverges | src/kkiapay/kkiapay.service.ts:213-250 | sixty seconds after the last rotation, a call whose read succeeds gives only the secret in force |
| KkiapayCaches.LastResort | src/kkiapay/kkiapay.service.ts:242-249 | on a failed read the last known secret serves, then the environment's, and there is none only when neither exists |
| KkiapayCaches.RevokedSecretStaysRevoked | src/kkiapay/kkiapay.service.ts:238-249 | once a removal was read, no later call gives the old secret, even when reads fail |
| AuthCache.CacheIsBounded | src/socket-io/gateways/app.gateway.ts:222-259 | at every await point of any interleaving, at most 2000 entries |
| AuthCache.HitIsRecentAndOwn | src/socket-io/gateways/app.gateway.ts:147-235 | a hit is the asker's own record, with the content a database read returned less than 10 s before |
| AuthCache.StoredIsServed | src/socket-io/gateways/app.gateway.ts:153-165 | over any interleaving in which the cache keeps room, a stored record is served until its ten seconds are up or a newer one is stored |
| AuthCache.LookUpIff | src/socket-io/gateways/app.gateway.ts:153-165 | a record is served exactly while alive |
| AuthCache.AskingEffect | src/socket-io/gateways/app.gateway.ts:151-165 | who has a live record asks the database nothing, who has none does |
| AuthCache.EvictionEffect | src/socket-io/gateways/app.gateway.ts:241-259 | making room drops every dead record, and a live one only when more than 2000 are alive |
| AuthCache.OverflowForgetsOne | src/socket-io/gateways/app.gateway.ts:222-259 | a full cache of live records forgets exactly one, that expires no later than any other |
| AuthCache.ConnectionCache.EvictCache | src/socket-io/gateways/app.gateway.ts:241-259 | eviction drops the expired, then only as many as needed, never one that expires later than one kept |
| TypingGateway.RunIsConsistent | src/socket-io/gateways/app.gateway.ts:414-515 | over any run, a timer is recorded exactly for each user typing in each conversation, every running timer is recorded, no conversation set is empty, and typists are connected |
| TypingGateway.StepIsConsistent | src/socket-io/gateways/app.gateway.ts:414-465 | each event changes the indicators of the pair it is about and no other |
| TypingGateway.TypingRenewsTimer | src/socket-io/gateways/app.gateway.ts:431-447 | typing again replaces the pair's timer by a new one and touches no other pair's |
| TypingGateway.DisconnectForgets | src/socket-io/gateways/app.gateway.ts:119-128 | a disconnect removes every indicator and timer of that user and touches nobody else's |
| TypingGateway.KeysDiffer | src/socket-io/gateways/app.gateway.ts:422-422 | timer keys tell users and conversations apart, whatever the conversation id holds |
| TypingGateway.Gateway.NotifyUserTyping | src/socket-io/gateways/app.gateway.ts:414-485 | start and stop as specified, and the emission names the others typing |
| TypingGateway.Gateway.CleanupUserTypingOnDisconnect | src/socket-io/gateways/app.gateway.ts:498-515 | both sweeps together remove what `Cleanup` says, in any state |
| PromoEffects.RecordEffect | src/modules/promo-code/promo-code.service.ts:622-677 | a usage is staged INACTIVE, once per code and order, and no counter moves |
| PromoEffects.ActivateStagedEffect | src/modules/promo-code/promo-code.service.ts:695-716 | a paid order counts its INACTIVE usage for the usage's own code |
| PromoEffects.ActivateUnstagedEffect | src/modules/promo-code/promo-code.service.ts:718-741 | a paid order without usage gets an ACTIVE one for its own code, at its own discount, counted at once |
| PromoEffects.DeactivateEffect | src/modules/promo-code/promo-code.service.ts:749-774 | a cancelled order turns all its usages INACTIVE and takes each counted one off its own code |
| PromoEffects.HoursOfTheDay | src/modules/promo-code/promo-code.service.ts:825-831 | hours run from 0 to 23 through each day |
| PromoEffects.WeekdaysFollow | src/modules/promo-code/promo-code.service.ts:832-832 | weekdays follow one another, calibrated on a known Sunday |
| PromoUsage.CounterAgrees | src/modules/promo-code/promo-code.service.ts:622-774 | over any serial run, whichever rows the lookups return, a code's counter is its number of ACTIVE usages |
| PromoUsage.ReplayCountsOnceIff | src/modules/promo-code/promo-code.service.ts:687-716 | a replayed payment counts nothing more if and only if no other usage of the order is still INACTIVE |
| PromoUsage.ActivationReplay | src/modules/promo-code/promo-code.service.ts:687-742 | with at most one usage per order, paying twice counts once |
| PromoUsage.TwoCodesOnOneOrderCountTwice | src/modules/promo-code/promo-code.service.ts:636-716 | a reachable state in which a replay counts a second code |
| PromoUsage.CancelThenPay | src/modules/promo-code/promo-code.service.ts:749-774 | cancelling and paying again restores rows and counters |
| PromoUsage.PromoCodes.DeactivateUsageForOrder | src/modules/promo-code/promo-code.service.ts:749-774 | each ACTIVE usage of the order is turned off and counted out of its own code |
| PromoAnalytics.GetAnalytics | src/modules/promo-code/promo-code.service.ts:791-833 | each hour, weekday, day and customer cell counts its own usages, and every breakdown sums to all of them, discounts included |
| PromoAnalytics.BreakdownsSumToCounter | src/modules/promo-code/promo-code.service.ts:782-871 | over any serial run, the hour, weekday, day and customer tallies each sum to the code's counter |
| CatalogTables.TwiceIsOnce | src/hubrise/services/hubrise-catalog-sync.service.ts:110-279 | upserting a list of entries twice, duplicates included, is upserting it once |
| CatalogTables.LastEntryWins | src/hubrise/services/hubrise-catalog-sync.service.ts:116-151 | each reference ends with what its last entry says |
| CatalogTables.OthersUntouched | src/hubrise/services/hubrise-catalog-sync.service.ts:110-279 | rows no entry refers to are left alone |
| CatalogEffects.CategoryReads | src/hubrise/services/hubrise-catalog-sync.service.ts:110-154 | a category reads what the last entry of its reference says; a new one is ACTIVE, a known one keeps its status |
| CatalogEffects.DishReads | src/hubrise/services/hubrise-catalog-sync.service.ts:161-239 | a dish reads its last entry under its category; a new one is ACTIVE with an image of its entries, a known one keeps image and status |
| CatalogEffects.SupplementReads | src/hubrise/services/hubrise-catalog-sync.service.ts:245-279 | a supplement has the last price of its name; a new one is available, a known one stays as it was |
| CatalogPull.PullTwice | src/hubrise/services/hubrise-catalog-sync.service.ts:60-104 | for any database and catalogue, pulling twice leaves the categories, dishes and supplements of pulling once, and references stay unique |
| CatalogPull.SecondPullCreatesNothing | src/hubrise/services/hubrise-catalog-sync.service.ts:60-104 | counters that account for a second pull show nothing created |
| CatalogPull.DishesOfPulledCategoriesAreKept | src/hubrise/services/hubrise-catalog-sync.service.ts:174-193 | a dish with a reference, of a pulled category, is entered under that category's row, and its row says what the last entry of its reference says |
| CatalogPull.CatalogSync.PullCatalog | src/hubrise/services/hubrise-catalog-sync.service.ts:60-104 | created, updated and skipped sum to the entries of each group, created is how much the table grew |
| CatalogPull.CatalogSync.SyncDishes | src/hubrise/services/hubrise-catalog-sync.service.ts:161-239 | dishes are skipped, patched or created as specified, through the references just synchronised or the database |

## Left out

- Otp.RateBound: the database error that `registerFailedOtpAttempt` swallows is not modelled (a failure that is not counted is not bounded).
- TurboPayments.DeclaredOnce: serial handlers only; for interleaved ones it is false, and `TurboDeclarations.OneDeclarationIff` says exactly when.
- ReferralLedger.CapHolds: serial handlers only, since the cap is read before the insert.
- PromoUsage.CounterAgrees: serial handlers only, since a usage is read before it is activated; codes are never deleted.
- CatalogPull.PullTwice: a `findFirst` over several supplements with one name returns the earliest row; the database promises no order.
- KkiapayCaches.ServedIsRecent: a call happens at one instant; the latency of a slow settings read adds to the ages stated.
- KkiapayService.Kkiapay.ResolveAccount: a restaurant is never named `__global__`.
- TypingGateway.RunIsConsistent: timers may fire at any moment; that they fire after three seconds is the runtime's promise.
- Turbo: timestamps, courier identity and position, websocket and notification effects other than the departure message; one course id stands for its unique reference, and course references of deliveries are fixed while handlers interleave.
- Calls: Lunion tokens, ringing notifications and room creation; only `no-answer` and room deletions are logged.
- Object-prototype names such as `constructor` are treated as unknown payment codes in `resoudreMoyenPaiement`.
- Floating point: amounts are whole FCFA, times whole milliseconds, coordinates whole 1e-5 degrees, commission percentages exact rationals; averages and rates of the analytics page are not modelled.
- Referral: code generation, masking of names, sales figures, order counts and the sorting of the admin list.
- Promo codes: validation and discount rules, the top-five customers.
- Catalogue: parsing of HubRise money, the inference of a supplement's category from its group name (given with the entry), the push, and name matching (`similarityScore`, `findBestMatch`).
- Gateway: rooms, presence checks and message emission other than the typing indicator's content; ids of users hold no underscore, as the database generates them.
- Cryptography, HTTP clients, queues, controllers and permission checks: their answers are parameters.
- Voucher, loyalty, retention and push-campaign code: not modelled, its laws are one-step facts.
